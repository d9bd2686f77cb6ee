/**
 When Stage1Detector runs an inference and when it emits an event, told from the inputs alone: a
 description by recursion over the earlier inputs, without the machine's state, counters or window, and
 the proof that the machine does exactly that.
*/
module Stage1Events {
  import opened Arithmetic
  import opened Stage1Detection
  import opened Stage1Runs
  import opened Stage1Evidence
  import opened Wrappers

  // ---------------------------------------------------------------- the description

  /** Inputs j .. i are all speech frames: j lies in the speech run that i belongs to. */
  ghost predicate OneRun(inputs: seq<Input>, j: int, i: int) {
    forall k :: j <= k <= i ==> Speech(inputs, k)
  }

  /**
   Input i runs an inference: a speech frame, with windowFrames rows since the last reset, no event yet in
   its speech run and none less than refractoryFrames frames ago (a negative setting never expires), and the
   last inference of its speech run, if any, at least hopFrames frames ago.
  */
  ghost predicate Due(cfg: Config, inputs: seq<Input>, i: nat)
    decreases i, 0
  {
    && Speech(inputs, i) && |Rows(inputs[..i + 1])| >= cfg.windowFrames
    && (forall j: nat :: j < i && OneRun(inputs, j, i) ==> !Detects(cfg, inputs, j) && (Due(cfg, inputs, j) ==> i - j >= cfg.hopFrames))
    && (forall j: nat :: j < i && NoReset(inputs, j, i) && Detects(cfg, inputs, j) ==> 0 <= cfg.refractoryFrames <= i - j)
  }

  /** M: how many inferences in a row must reach the threshold. */
  function Wanted(cfg: Config): nat {
    if cfg.consecutiveWindows >= 1 then cfg.consecutiveWindows else 1
  }

  /** What the inference at input i sees. */
  function Seen(cfg: Config, inputs: seq<Input>, i: nat): seq<Row>
    requires i < |inputs|
  {
    Latest(Rows(inputs[..i + 1]), cfg.windowFrames)
  }

  /** An inference ran, succeeded and reached the threshold. */
  ghost predicate High(cfg: Config, inputs: seq<Input>, i: nat)
    decreases i, 1
  {
    && Speech(inputs, i) && Due(cfg, inputs, i)
    && inputs[i].frame.stage1(Seen(cfg, inputs, i)).Some? && inputs[i].frame.stage1(Seen(cfg, inputs, i)).value >= cfg.threshold
  }

  /** An inference ran, succeeded and stayed below it. */
  ghost predicate Low(cfg: Config, inputs: seq<Input>, i: nat)
    decreases i, 1
  {
    && Speech(inputs, i) && Due(cfg, inputs, i)
    && inputs[i].frame.stage1(Seen(cfg, inputs, i)).Some? && inputs[i].frame.stage1(Seen(cfg, inputs, i)).value < cfg.threshold
  }

  /** How many inferences up to and including input i reached the threshold since the last low score or reset. */
  ghost function Streak(cfg: Config, inputs: seq<Input>, i: int): nat
    requires i < |inputs|
    decreases i, 2
  {
    if i < 0 || inputs[i].Reset? || Low(cfg, inputs, i) then 0
    else Streak(cfg, inputs, i - 1) + if High(cfg, inputs, i) then 1 else 0
  }

  /**
   Input i emits an event: its inference is the M-th, 2M-th, ... of a streak, and the verifier, if there is
   one, agrees on the same rows.
  */
  ghost predicate Detects(cfg: Config, inputs: seq<Input>, i: nat)
    decreases i, 3
  {
    && Speech(inputs, i) && High(cfg, inputs, i) && Streak(cfg, inputs, i) % Wanted(cfg) == 0
    && (cfg.stage2Active ==>
          var verdict := inputs[i].frame.stage2(Seen(cfg, inputs, i));
          verdict.Some? && verdict.value >= cfg.stage2Threshold)
  }

  // ---------------------------------------------------------------- the machine, one input at a time

  /** The machine runs an inference at input i. */
  predicate Runs(cfg: Config, inputs: seq<Input>, i: nat)
    requires cfg.Valid() && i < |inputs|
  {
    inputs[i].Push? && Ready(cfg, Arrived(cfg, After(cfg, inputs[..i]), inputs[i].frame), inputs[i].frame.speech)
  }

  lemma ConfirmedStep(cfg: Config, s: State, i: Input)
    requires cfg.Valid() && |s.window| == cfg.windowFrames && AtRest(cfg, s)
    ensures Next(cfg, s, i).0.fsm == DetectionConfirmed <==>
            i.Push? && i.frame.speech && (Next(cfg, s, i).1.Some? || (s.prevSpeech && s.fsm == DetectionConfirmed))
  {
  }

  /** Confirmed between inputs exactly when the current speech run has had its event. */
  lemma {:induction false} ConfirmedIff(cfg: Config, inputs: seq<Input>, n: nat)
    requires cfg.Valid() && n <= |inputs|
    ensures After(cfg, inputs[..n]).fsm == DetectionConfirmed <==>
            exists j: nat :: j < n && OneRun(inputs, j, n - 1) && Emitted(cfg, inputs, j).Some?
    decreases n
  {
    if n > 0 {
      var m := n - 1;
      var s := After(cfg, inputs[..m]);
      AlwaysAtRest(cfg, inputs[..m]);
      assert s.prevSpeech == Speech(inputs, m - 1);
      hide AtRest, After, Next, Emitted;
      ConfirmedIff(cfg, inputs, m);
      AfterStep(cfg, inputs, m);
      ConfirmedStep(cfg, s, inputs[m]);
      EmittedIs(cfg, inputs, m);
      RunGrows(cfg, inputs, m);
    }
  }

  lemma EmittedIs(cfg: Config, inputs: seq<Input>, i: nat)
    requires cfg.Valid() && i < |inputs|
    ensures Emitted(cfg, inputs, i) == Next(cfg, After(cfg, inputs[..i]), inputs[i]).1
  {
    hide Next, After;
  }

  /** An event in the speech run up to m: at m itself, or in the run up to m - 1. */
  lemma RunGrows(cfg: Config, inputs: seq<Input>, m: nat)
    requires cfg.Valid() && m < |inputs|
    ensures (exists j: nat :: j < m + 1 && OneRun(inputs, j, m) && Emitted(cfg, inputs, j).Some?) <==>
            Speech(inputs, m) && (Emitted(cfg, inputs, m).Some?
              || (Speech(inputs, m - 1) && exists j: nat :: j < m && OneRun(inputs, j, m - 1) && Emitted(cfg, inputs, j).Some?))
  {
    hide Emitted, Speech;
    if j: nat :| j < m + 1 && OneRun(inputs, j, m) && Emitted(cfg, inputs, j).Some? {
      assert Speech(inputs, m);
      if j < m { assert Speech(inputs, m - 1) && OneRun(inputs, j, m - 1); }
    }
    if Speech(inputs, m) {
      assert OneRun(inputs, m, m);
      if j: nat :| j < m && OneRun(inputs, j, m - 1) && Emitted(cfg, inputs, j).Some? { assert OneRun(inputs, j, m); }
    }
  }

  // ---- the refractory counter

  /** The last event since the last reset. */
  function LastEvent(cfg: Config, inputs: seq<Input>, n: nat): (e: Option<nat>)
    requires cfg.Valid() && n <= |inputs|
    ensures e.Some? ==> e.value < n
    decreases n
  {
    if n == 0 || inputs[n - 1].Reset? then None
    else if Emitted(cfg, inputs, n - 1).Some? then Some(n - 1)
    else LastEvent(cfg, inputs, n - 1)
  }

  /** The counter after n inputs, when the last event was at e; a negative setting stays. */
  function Left(cfg: Config, e: Option<nat>, n: nat): int {
    if e.None? then 0
    else if cfg.refractoryFrames <= 0 then cfg.refractoryFrames
    else if cfg.refractoryFrames > n - 1 - e.value then cfg.refractoryFrames - (n - 1 - e.value)
    else 0
  }

  lemma CountdownStep(cfg: Config, s: State, i: Input)
    requires cfg.Valid() && |s.window| == cfg.windowFrames
    ensures Next(cfg, s, i).0.refractory ==
            if i.Reset? then 0
            else if Next(cfg, s, i).1.Some? then cfg.refractoryFrames
            else if s.refractory > 0 then s.refractory - 1 else s.refractory
  {
  }

  lemma LeftStep(cfg: Config, inputs: seq<Input>, m: nat)
    requires cfg.Valid() && m < |inputs|
    ensures Left(cfg, LastEvent(cfg, inputs, m + 1), m + 1) ==
            if inputs[m].Reset? then 0
            else if Emitted(cfg, inputs, m).Some? then cfg.refractoryFrames
            else var r := Left(cfg, LastEvent(cfg, inputs, m), m); if r > 0 then r - 1 else r
  {
    hide Emitted;
  }

  lemma CountdownGoesOn(cfg: Config, inputs: seq<Input>, m: nat)
    requires cfg.Valid() && m < |inputs| && After(cfg, inputs[..m]).refractory == Left(cfg, LastEvent(cfg, inputs, m), m)
    ensures After(cfg, inputs[..m + 1]).refractory == Left(cfg, LastEvent(cfg, inputs, m + 1), m + 1)
  {
    hide *;
    AfterStep(cfg, inputs, m);
    CountdownStep(cfg, After(cfg, inputs[..m]), inputs[m]);
    EmittedIs(cfg, inputs, m);
    LeftStep(cfg, inputs, m);
  }

  lemma NothingYet(cfg: Config, inputs: seq<Input>)
    requires cfg.Valid()
    ensures After(cfg, inputs[..0]) == Initial(cfg) && LastEvent(cfg, inputs, 0) == None && Positives(cfg, inputs, -1) == 0
    ensures Initial(cfg).refractory == 0 && Initial(cfg).consecutive == 0 && Left(cfg, None, 0) == 0
  {
  }

  lemma {:induction false} CountdownIs(cfg: Config, inputs: seq<Input>, n: nat)
    requires cfg.Valid() && n <= |inputs|
    ensures After(cfg, inputs[..n]).refractory == Left(cfg, LastEvent(cfg, inputs, n), n)
    decreases n
  {
    hide *;
    if n == 0 {
      NothingYet(cfg, inputs);
    } else {
      CountdownIs(cfg, inputs, n - 1);
      CountdownGoesOn(cfg, inputs, n - 1);
    }
  }

  lemma ResetEmitsNothing(cfg: Config, inputs: seq<Input>, i: nat)
    requires cfg.Valid() && i < |inputs|
    ensures inputs[i].Reset? ==> Emitted(cfg, inputs, i).None?
  {
  }

  /** The events since the last reset all precede the last one. */
  lemma {:induction false} LastEventIsLast(cfg: Config, inputs: seq<Input>, n: nat)
    requires cfg.Valid() && n <= |inputs|
    ensures var e := LastEvent(cfg, inputs, n);
            && (e.Some? ==> NoReset(inputs, e.value, n) && Emitted(cfg, inputs, e.value).Some?)
            && forall j: nat :: j < n && NoReset(inputs, j, n) && Emitted(cfg, inputs, j).Some? ==> e.Some? && j <= e.value
    decreases n
  {
    hide Emitted, NoReset;
    if n > 0 {
      var m: nat := n - 1;
      LastEventIsLast(cfg, inputs, m);
      ResetEmitsNothing(cfg, inputs, m);
      forall j: nat | j < n && Emitted(cfg, inputs, j).Some?
        ensures NoReset(inputs, j, n) <==> j == m || (inputs[m].Push? && NoReset(inputs, j, m))
      {
        NoResetGrows(inputs, j, m);
      }
    }
  }

  lemma NoResetGrows(inputs: seq<Input>, j: nat, m: nat)
    requires j <= m < |inputs|
    ensures NoReset(inputs, j, m + 1) <==> j == m || (inputs[m].Push? && NoReset(inputs, j, m))
  {
    if j < m {
      if NoReset(inputs, j, m + 1) { assert inputs[m].Push?; }
    }
  }

  /** The counter has run out for input n exactly when every event since the last reset is long enough ago. */
  lemma CooledIff(cfg: Config, inputs: seq<Input>, n: nat)
    requires cfg.Valid() && n < |inputs| && inputs[n].Push?
    ensures Arrived(cfg, After(cfg, inputs[..n]), inputs[n].frame).refractory == 0 <==>
            forall j: nat :: j < n && NoReset(inputs, j, n) && Emitted(cfg, inputs, j).Some? ==> 0 <= cfg.refractoryFrames <= n - j
  {
    CountdownIs(cfg, inputs, n);
    LastEventIsLast(cfg, inputs, n);
    var s := After(cfg, inputs[..n]);
    assert Arrived(cfg, s, inputs[n].frame).refractory == if s.refractory > 0 then s.refractory - 1 else s.refractory;
    hide After, Arrived, Emitted, LastEvent, NoReset;
  }

  // ---- the hop counter

  /** The last inference of the speech run that ends at n - 1. */
  function LastRun(cfg: Config, inputs: seq<Input>, n: nat): (m: Option<nat>)
    requires cfg.Valid() && n <= |inputs|
    ensures m.Some? ==> m.value < n
    decreases n
  {
    if !Speech(inputs, n - 1) then None
    else if Runs(cfg, inputs, n - 1) then Some(n - 1)
    else LastRun(cfg, inputs, n - 1)
  }

  /** What the hop counter is after a speech frame. */
  lemma HopStep(cfg: Config, s: State, f: Frame)
    requires cfg.Valid() && |s.window| == cfg.windowFrames && f.speech
    ensures Arrived(cfg, s, f).sinceInfer == (if s.prevSpeech then s.sinceInfer else cfg.hopFrames) + 1
    ensures Pushed(cfg, s, f).0.sinceInfer ==
            if Ready(cfg, Arrived(cfg, s, f), f.speech) then 0 else Arrived(cfg, s, f).sinceInfer
  {
  }

  lemma {:induction false} HopIs(cfg: Config, inputs: seq<Input>, n: nat)
    requires cfg.Valid() && n <= |inputs| && Speech(inputs, n - 1)
    ensures var m, c := LastRun(cfg, inputs, n), After(cfg, inputs[..n]).sinceInfer;
            if m.Some? then c == n - 1 - m.value else c >= cfg.hopFrames
    decreases n
  {
    var m, f := n - 1, inputs[n - 1].frame;
    var s := After(cfg, inputs[..m]);
    AlwaysAtRest(cfg, inputs[..m]);
    assert s.prevSpeech == Speech(inputs, m - 1);
    AfterStep(cfg, inputs, m);
    HopStep(cfg, s, f);
    hide After, Arrived, Ready, Pushed, AtRest;
    if Speech(inputs, m - 1) { HopIs(cfg, inputs, m); }
  }

  /** The inferences of the current speech run all precede the last one. */
  lemma {:induction false} LastRunIsLast(cfg: Config, inputs: seq<Input>, n: nat)
    requires cfg.Valid() && n <= |inputs|
    ensures var m := LastRun(cfg, inputs, n);
            && (m.Some? ==> OneRun(inputs, m.value, n - 1) && Runs(cfg, inputs, m.value))
            && forall j: nat :: j < n && OneRun(inputs, j, n - 1) && Runs(cfg, inputs, j) ==> m.Some? && j <= m.value
    decreases n
  {
    hide Runs, Speech, OneRun;
    if n > 0 {
      var m: nat := n - 1;
      if Speech(inputs, m) {
        LastRunIsLast(cfg, inputs, m);
        OneRunHere(inputs, m);
        if LastRun(cfg, inputs, m).Some? { OneRunGoesOn(inputs, LastRun(cfg, inputs, m).value, m); }
      }
      forall j: nat | j < n && OneRun(inputs, j, m) && Runs(cfg, inputs, j)
        ensures LastRun(cfg, inputs, n).Some? && j <= LastRun(cfg, inputs, n).value
      {
        OneRunEnds(inputs, j, m);
      }
    }
  }

  lemma OneRunHere(inputs: seq<Input>, m: nat)
    requires Speech(inputs, m)
    ensures OneRun(inputs, m, m)
  {
  }

  lemma OneRunGoesOn(inputs: seq<Input>, j: nat, m: nat)
    requires j < m && Speech(inputs, m) && OneRun(inputs, j, m - 1)
    ensures OneRun(inputs, j, m)
  {
  }

  lemma OneRunEnds(inputs: seq<Input>, j: nat, m: nat)
    requires j <= m && OneRun(inputs, j, m)
    ensures Speech(inputs, m) && (j < m ==> OneRun(inputs, j, m - 1))
  {
    assert Speech(inputs, m);
  }

  /** The hop counter allows an inference at speech frame n exactly when the last one of its run is long enough ago. */
  lemma SpacedIff(cfg: Config, inputs: seq<Input>, n: nat)
    requires cfg.Valid() && n < |inputs| && Speech(inputs, n)
    ensures Arrived(cfg, After(cfg, inputs[..n]), inputs[n].frame).sinceInfer >= cfg.hopFrames <==>
            forall j: nat :: j < n && OneRun(inputs, j, n) && Runs(cfg, inputs, j) ==> n - j >= cfg.hopFrames
  {
    AlwaysAtRest(cfg, inputs[..n]);
    assert After(cfg, inputs[..n]).prevSpeech == Speech(inputs, n - 1);
    HopStep(cfg, After(cfg, inputs[..n]), inputs[n].frame);
    hide After, Arrived, AtRest, Runs, OneRun, Speech, Ready, Pushed, LastRun;
    forall j: nat | j < n
      ensures OneRun(inputs, j, n) <==> OneRun(inputs, j, n - 1)
      ensures OneRun(inputs, j, n) ==> Speech(inputs, n - 1)
    {
      RunExtends(inputs, j, n);
    }
    LastRunIsLast(cfg, inputs, n);
    if Speech(inputs, n - 1) { HopIs(cfg, inputs, n); }
  }

  lemma RunExtends(inputs: seq<Input>, j: nat, n: nat)
    requires j < n && Speech(inputs, n)
    ensures OneRun(inputs, j, n) <==> OneRun(inputs, j, n - 1)
    ensures OneRun(inputs, j, n) ==> Speech(inputs, n - 1)
  {
    hide Speech;
  }

  /** The window is full exactly when windowFrames rows are in. */
  lemma FilledIff(cfg: Config, inputs: seq<Input>, n: nat)
    requires cfg.Valid() && n < |inputs| && inputs[n].Push?
    ensures Arrived(cfg, After(cfg, inputs[..n]), inputs[n].frame).filled >= cfg.windowFrames <==>
            |Rows(inputs[..n + 1])| >= cfg.windowFrames
  {
    ArrivedHolds(cfg, inputs, n);
    hide After, Arrived, Rows;
  }

  lemma ArmedStep(cfg: Config, s: State, f: Frame)
    requires cfg.Valid() && |s.window| == cfg.windowFrames && AtRest(cfg, s) && f.speech
    ensures var a := Arrived(cfg, s, f);
            a.fsm == VadTriggered || a.fsm == Stage1Running <==> !(s.prevSpeech && s.fsm == DetectionConfirmed)
  {
  }

  /** The machine is armed for speech frame n exactly when its speech run has had no event. */
  lemma ArmedIff(cfg: Config, inputs: seq<Input>, n: nat)
    requires cfg.Valid() && n < |inputs| && Speech(inputs, n)
    ensures var a := Arrived(cfg, After(cfg, inputs[..n]), inputs[n].frame);
            a.fsm == VadTriggered || a.fsm == Stage1Running <==>
            forall j: nat :: j < n && OneRun(inputs, j, n) ==> Emitted(cfg, inputs, j).None?
  {
    var s := After(cfg, inputs[..n]);
    AlwaysAtRest(cfg, inputs[..n]);
    assert s.prevSpeech == Speech(inputs, n - 1) && (s.fsm == DetectionConfirmed ==> s.prevSpeech);
    ArmedStep(cfg, s, inputs[n].frame);
    hide After, Arrived, AtRest, Emitted, OneRun, Speech;
    ConfirmedIff(cfg, inputs, n);
    forall j: nat | j < n
      ensures OneRun(inputs, j, n) <==> OneRun(inputs, j, n - 1)
    {
      RunExtends(inputs, j, n);
    }
  }

  lemma RunsAre(cfg: Config, inputs: seq<Input>, n: nat)
    requires cfg.Valid() && n < |inputs|
    ensures Runs(cfg, inputs, n) ==> Speech(inputs, n)
    ensures Speech(inputs, n) ==>
              var a := Arrived(cfg, After(cfg, inputs[..n]), inputs[n].frame);
              Runs(cfg, inputs, n) ==
                ((a.fsm == VadTriggered || a.fsm == Stage1Running)
                 && a.refractory == 0 && a.filled >= cfg.windowFrames && a.sinceInfer >= cfg.hopFrames)
  {
    hide After, Arrived;
  }

  /** When the machine runs an inference, in terms of its own earlier events and inferences. */
  lemma RunsIff(cfg: Config, inputs: seq<Input>, n: nat)
    requires cfg.Valid() && n < |inputs|
    ensures Runs(cfg, inputs, n) <==>
            && Speech(inputs, n) && |Rows(inputs[..n + 1])| >= cfg.windowFrames
            && (forall j: nat :: j < n && OneRun(inputs, j, n) ==> Emitted(cfg, inputs, j).None?)
            && (forall j: nat :: j < n && OneRun(inputs, j, n) && Runs(cfg, inputs, j) ==> n - j >= cfg.hopFrames)
            && (forall j: nat :: j < n && NoReset(inputs, j, n) && Emitted(cfg, inputs, j).Some? ==> 0 <= cfg.refractoryFrames <= n - j)
  {
    RunsAre(cfg, inputs, n);
    if Speech(inputs, n) {
      assert inputs[n].Push?;
      hide *;
      ArmedIff(cfg, inputs, n);
      SpacedIff(cfg, inputs, n);
      CooledIff(cfg, inputs, n);
      FilledIff(cfg, inputs, n);
    }
  }

  // ---------------------------------------------------------------- emission

  /** The streak of the machine's own positive inferences since its last negative one or the last reset. */
  function Positives(cfg: Config, inputs: seq<Input>, i: int): nat
    requires cfg.Valid() && i < |inputs|
    decreases i
  {
    if i < 0 || inputs[i].Reset? || Negative(cfg, inputs, i) then 0
    else Positives(cfg, inputs, i - 1) + if Positive(cfg, inputs, i) then 1 else 0
  }

  /** How far the streak is into its current group of n. */
  function Into(t: nat, n: nat): (r: nat)
    requires n >= 1
    ensures r < n && (t == 0 ==> r == 0)
  {
    t % n
  }

  lemma NextRemainder(t: nat, n: nat)
    requires n >= 1
    ensures Into(t + 1, n) == if Into(t, n) + 1 == n then 0 else Into(t, n) + 1
  {
    var q := t / n;
    assert t == q * n + t % n;
    if t % n + 1 == n {
      assert t + 1 == (q + 1) * n;
      Remainder(t + 1, n, q + 1, 0);
    } else {
      Remainder(t + 1, n, q, t % n + 1);
    }
  }

  lemma Remainder(a: nat, n: nat, q: nat, r: nat)
    requires n >= 1 && r < n && a == q * n + r
    ensures a % n == r
  {
    DivIs(a, n, q, r);
  }

  lemma PositivesStep(cfg: Config, inputs: seq<Input>, m: nat)
    requires cfg.Valid() && m < |inputs|
    ensures Positives(cfg, inputs, m) ==
            if inputs[m].Reset? || Negative(cfg, inputs, m) then 0
            else Positives(cfg, inputs, m - 1) + if Positive(cfg, inputs, m) then 1 else 0
    ensures Fired(cfg, inputs, m) <==> Positive(cfg, inputs, m) && After(cfg, inputs[..m]).consecutive + 1 >= cfg.Needed()
  {
    hide Negative, Positive, After;
  }

  lemma CountGoesOn(cfg: Config, inputs: seq<Input>, m: nat)
    requires cfg.Valid() && m < |inputs|
    requires After(cfg, inputs[..m]).consecutive == Into(Positives(cfg, inputs, m - 1), cfg.Needed())
    ensures After(cfg, inputs[..m + 1]).consecutive == Into(Positives(cfg, inputs, m), cfg.Needed())
  {
    hide *;
    AfterStep(cfg, inputs, m);
    CountStep(cfg, inputs, m);
    PositivesStep(cfg, inputs, m);
    PositiveIsNot(cfg, inputs, m);
    NextRemainder(Positives(cfg, inputs, m - 1), cfg.Needed());
  }

  /** The counter is the streak modulo M: firing clears it, whatever the verifier says. */
  lemma {:induction false} CountIsStreak(cfg: Config, inputs: seq<Input>, n: nat)
    requires cfg.Valid() && n <= |inputs|
    ensures After(cfg, inputs[..n]).consecutive == Into(Positives(cfg, inputs, n - 1), cfg.Needed())
    decreases n
  {
    hide *;
    if n == 0 {
      NothingYet(cfg, inputs);
    } else {
      CountIsStreak(cfg, inputs, n - 1);
      CountGoesOn(cfg, inputs, n - 1);
    }
  }

  lemma PositiveIsNot(cfg: Config, inputs: seq<Input>, i: nat)
    requires cfg.Valid() && i < |inputs|
    ensures Positive(cfg, inputs, i) ==> inputs[i].Push? && !Negative(cfg, inputs, i)
  {
    hide After, Arrived, Ready;
  }

  /** The verifier is absent, or agrees on the latest rows. */
  predicate Agreed(cfg: Config, inputs: seq<Input>, i: nat)
    requires i < |inputs| && inputs[i].Push?
  {
    cfg.stage2Active ==>
      var verdict := inputs[i].frame.stage2(Seen(cfg, inputs, i));
      verdict.Some? && verdict.value >= cfg.stage2Threshold
  }

  lemma EmitStep(cfg: Config, s: State, f: Frame)
    requires cfg.Valid() && |s.window| == cfg.windowFrames
    ensures var a := Arrived(cfg, s, f);
            Pushed(cfg, s, f).1.Some? <==>
              && Ready(cfg, a, f.speech) && f.stage1(a.window).Some? && f.stage1(a.window).value >= cfg.threshold
              && s.consecutive + 1 >= cfg.Needed()
              && (cfg.stage2Active ==> f.stage2(a.window).Some? && f.stage2(a.window).value >= cfg.stage2Threshold)
  {
    ArrivedKeepsCount(cfg, s, f);
    hide Arrived, Ready, Transition;
  }

  lemma ScoreIs(cfg: Config, inputs: seq<Input>, i: nat)
    requires cfg.Valid() && i < |inputs| && inputs[i].Push?
    ensures Score(cfg, inputs, i) ==
            if Runs(cfg, inputs, i) then inputs[i].frame.stage1(Arrived(cfg, After(cfg, inputs[..i]), inputs[i].frame).window) else None
  {
    hide After, Arrived, Ready;
  }

  lemma WindowIsSeen(cfg: Config, inputs: seq<Input>, i: nat)
    requires cfg.Valid() && i < |inputs| && Runs(cfg, inputs, i)
    ensures inputs[i].Push? && Arrived(cfg, After(cfg, inputs[..i]), inputs[i].frame).window == Seen(cfg, inputs, i)
  {
    assert inputs[i].Push?;
    var a := Arrived(cfg, After(cfg, inputs[..i]), inputs[i].frame);
    assert a.filled >= cfg.windowFrames;
    ArrivedHolds(cfg, inputs, i);
    hide After, Arrived, Rows, Holds, Latest;
    FullWindow(cfg, a, Rows(inputs[..i + 1]));
  }

  lemma EmitsByCount(cfg: Config, inputs: seq<Input>, i: nat)
    requires cfg.Valid() && i < |inputs| && inputs[i].Push?
    ensures Emitted(cfg, inputs, i).Some? <==>
            Positive(cfg, inputs, i) && After(cfg, inputs[..i]).consecutive + 1 >= cfg.Needed() && Agreed(cfg, inputs, i)
  {
    var s, f := After(cfg, inputs[..i]), inputs[i].frame;
    assert Emitted(cfg, inputs, i) == Pushed(cfg, s, f).1;
    assert Runs(cfg, inputs, i) <==> Ready(cfg, Arrived(cfg, s, f), f.speech);
    hide After, Arrived, Ready, Emitted, Pushed, Score, Seen, Runs;
    EmitStep(cfg, s, f);
    ScoreIs(cfg, inputs, i);
    if Runs(cfg, inputs, i) { WindowIsSeen(cfg, inputs, i); }
  }

  /**
   The machine emits at input i exactly when an inference runs there, succeeds and reaches the threshold, is the M-th,
   2M-th, ... of an unbroken streak of such, and the verifier agrees.
  */
  lemma EmitsIff(cfg: Config, inputs: seq<Input>, i: nat)
    requires cfg.Valid() && i < |inputs|
    ensures Emitted(cfg, inputs, i).Some? <==>
            Positive(cfg, inputs, i) && Into(Positives(cfg, inputs, i), cfg.Needed()) == 0 && inputs[i].Push? && Agreed(cfg, inputs, i)
  {
    hide *;
    PositiveIsNot(cfg, inputs, i);
    if inputs[i].Push? {
      EmitsByCount(cfg, inputs, i);
      CountIsStreak(cfg, inputs, i);
      PositivesStep(cfg, inputs, i);
      NextRemainder(Positives(cfg, inputs, i - 1), cfg.Needed());
    } else {
      ResetEmitsNothing(cfg, inputs, i);
    }
  }

  // ---------------------------------------------------------------- the machine does what is described

  /** Machine and description agree on every input before n. */
  ghost predicate AgreeBefore(cfg: Config, inputs: seq<Input>, n: nat)
    requires cfg.Valid() && n <= |inputs|
  {
    forall j: nat :: j < n ==> (Emitted(cfg, inputs, j).Some? <==> Detects(cfg, inputs, j)) && (Runs(cfg, inputs, j) <==> Due(cfg, inputs, j))
  }

  lemma RunsIsDue(cfg: Config, inputs: seq<Input>, n: nat)
    requires cfg.Valid() && n < |inputs| && AgreeBefore(cfg, inputs, n)
    ensures Runs(cfg, inputs, n) <==> Due(cfg, inputs, n)
  {
    RunsIff(cfg, inputs, n);
    hide Runs, Emitted, Speech, OneRun, NoReset, Rows, Detects;
  }

  lemma PositiveIsHigh(cfg: Config, inputs: seq<Input>, i: nat)
    requires cfg.Valid() && i < |inputs| && (Runs(cfg, inputs, i) <==> Due(cfg, inputs, i))
    ensures Positive(cfg, inputs, i) <==> High(cfg, inputs, i)
    ensures Negative(cfg, inputs, i) <==> Low(cfg, inputs, i)
  {
    RunsAre(cfg, inputs, i);
    if inputs[i].Push? {
      if Runs(cfg, inputs, i) { WindowIsSeen(cfg, inputs, i); }
      ScoreIs(cfg, inputs, i);
    }
    hide Runs, Due, After, Arrived, Seen, Ready;
  }

  lemma {:induction false} PositivesAreStreak(cfg: Config, inputs: seq<Input>, i: int)
    requires cfg.Valid() && i < |inputs|
    requires forall j: nat :: j <= i ==> (Runs(cfg, inputs, j) <==> Due(cfg, inputs, j))
    ensures Positives(cfg, inputs, i) == Streak(cfg, inputs, i)
    decreases i
  {
    if i >= 0 {
      PositiveIsHigh(cfg, inputs, i);
      hide Runs, Due, Positive, Negative, High, Low;
      PositivesAreStreak(cfg, inputs, i - 1);
    }
  }

  lemma EmittedIsDetected(cfg: Config, inputs: seq<Input>, n: nat)
    requires cfg.Valid() && n < |inputs| && AgreeBefore(cfg, inputs, n) && (Runs(cfg, inputs, n) <==> Due(cfg, inputs, n))
    ensures Emitted(cfg, inputs, n).Some? <==> Detects(cfg, inputs, n)
  {
    hide Runs, Due, Emitted, Streak, Positives, Positive, Negative, High, Low, Seen;
    PositiveIsHigh(cfg, inputs, n);
    PositivesAreStreak(cfg, inputs, n);
    EmitsIff(cfg, inputs, n);
    HighIsSpeech(cfg, inputs, n);
  }

  lemma HighIsSpeech(cfg: Config, inputs: seq<Input>, i: nat)
    ensures High(cfg, inputs, i) ==> Speech(inputs, i)
  {
  }

  lemma OneMoreAgrees(cfg: Config, inputs: seq<Input>, n: nat)
    requires cfg.Valid() && n < |inputs| && AgreeBefore(cfg, inputs, n)
    requires Runs(cfg, inputs, n) <==> Due(cfg, inputs, n)
    requires Emitted(cfg, inputs, n).Some? <==> Detects(cfg, inputs, n)
    ensures AgreeBefore(cfg, inputs, n + 1)
  {
    hide Runs, Due, Emitted, Detects;
  }

  lemma {:induction false} AlwaysAgree(cfg: Config, inputs: seq<Input>, n: nat)
    requires cfg.Valid() && n <= |inputs|
    ensures AgreeBefore(cfg, inputs, n)
    decreases n
  {
    if n > 0 {
      hide Runs, Due, Emitted, Detects, AgreeBefore;
      AlwaysAgree(cfg, inputs, n - 1);
      RunsIsDue(cfg, inputs, n - 1);
      EmittedIsDetected(cfg, inputs, n - 1);
      OneMoreAgrees(cfg, inputs, n - 1);
    }
  }

  /** Over any frames and resets: an inference runs exactly when it is due. */
  lemma InfersWhenDue(cfg: Config, inputs: seq<Input>, i: nat)
    requires cfg.Valid() && i < |inputs|
    ensures Runs(cfg, inputs, i) <==> Due(cfg, inputs, i)
    ensures Score(cfg, inputs, i) == if Due(cfg, inputs, i) then inputs[i].frame.stage1(Seen(cfg, inputs, i)) else None
  {
    AlwaysAgree(cfg, inputs, i + 1);
    RunsAre(cfg, inputs, i);
    if inputs[i].Push? {
      if Runs(cfg, inputs, i) { WindowIsSeen(cfg, inputs, i); }
      ScoreIs(cfg, inputs, i);
    }
    hide Runs, Due, Arrived, After, Ready, Seen;
  }

  /**
   Over any frames and resets: input i emits an event exactly when the description says so, and the event carries the
   frame's timestamp and the verifier's score, or Stage-1's if there is no verifier.
  */
  lemma EmitsExactly(cfg: Config, inputs: seq<Input>, i: nat)
    requires cfg.Valid() && i < |inputs|
    ensures Emitted(cfg, inputs, i).Some? <==> Detects(cfg, inputs, i)
    ensures Detects(cfg, inputs, i) ==>
              var f, e := inputs[i].frame, Emitted(cfg, inputs, i).value;
              && e.timestamp == f.timestamp
              && Some(e.confidence) == if cfg.stage2Active then f.stage2(Seen(cfg, inputs, i)) else f.stage1(Seen(cfg, inputs, i))
  {
    AlwaysAgree(cfg, inputs, i + 1);
    InfersWhenDue(cfg, inputs, i);
    hide Runs, Due, After;
    if Detects(cfg, inputs, i) {
      EventMeansFired(cfg, inputs, i);
    }
    hide Emitted, Score;
  }

  // ---------------------------------------------------------------- ids

  /** How many speech runs have begun among the first n inputs. */
  function Openings(inputs: seq<Input>, n: nat): nat
    requires n <= |inputs|
  {
    if n == 0 then 0 else Openings(inputs, n - 1) + if Speech(inputs, n - 1) && !Speech(inputs, n - 2) then 1 else 0
  }

  lemma IdStep(cfg: Config, s: State, i: Input)
    requires cfg.Valid() && |s.window| == cfg.windowFrames && AtRest(cfg, s)
    ensures Next(cfg, s, i).0.idCounter == s.idCounter + if i.Push? && i.frame.speech && !s.prevSpeech then 1 else 0
  {
  }

  lemma {:induction false} IdsCountOpenings(cfg: Config, inputs: seq<Input>, n: nat)
    requires cfg.Valid() && n <= |inputs|
    ensures After(cfg, inputs[..n]).idCounter == Openings(inputs, n)
    decreases n
  {
    if n > 0 {
      var m: nat := n - 1;
      AlwaysAtRest(cfg, inputs[..m]);
      assert After(cfg, inputs[..m]).prevSpeech == Speech(inputs, m - 1);
      hide After, Next, AtRest;
      IdsCountOpenings(cfg, inputs, m);
      AfterStep(cfg, inputs, m);
      IdStep(cfg, After(cfg, inputs[..m]), inputs[m]);
    }
  }

  /** An event's id is the number of its speech run, counted over resets too. */
  lemma IdIs(cfg: Config, inputs: seq<Input>, i: nat)
    requires cfg.Valid() && i < |inputs| && Emitted(cfg, inputs, i).Some?
    ensures Emitted(cfg, inputs, i).value.id.hi == cfg.idHigh && Emitted(cfg, inputs, i).value.id.lo == Openings(inputs, i + 1)
  {
    hide Emitted, After;
    EventLeaves(cfg, inputs, i);
    IdsCountOpenings(cfg, inputs, i + 1);
  }
}
