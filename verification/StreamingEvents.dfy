/**
 When StreamingDetector emits an event, over any frames and resets, told from the scores alone, and what
 the event carries.
*/
module StreamingEvents {
  import opened Ids
  import opened StreamingDetection
  import opened Wrappers

  function Needed(cfg: Config): nat {
    if cfg.consecutive > 0 then cfg.consecutive else 1
  }

  /** Frames suppressed after an event; a negative setting suppresses none. */
  function Suppressed(cfg: Config): nat {
    if cfg.refractoryFrames > 0 then cfg.refractoryFrames else 0
  }

  /** Input k is a frame whose score reaches the threshold. */
  predicate Positive(cfg: Config, inputs: seq<Input>, k: int) {
    0 <= k < |inputs| && inputs[k].Frame? && inputs[k].score >= cfg.threshold
  }

  /** No reset strictly between j and n. */
  ghost predicate NoReset(inputs: seq<Input>, j: int, n: int) {
    forall k :: j < k < n && 0 <= k < |inputs| ==> inputs[k].Frame?
  }

  /**
   Input n emits: the last M inputs are positive frames, and every event since the last reset is far enough back for all
   of them to lie past the frames it suppresses.
  */
  ghost predicate Detects(cfg: Config, inputs: seq<Input>, n: nat)
    decreases n
  {
    && (forall k :: n - Needed(cfg) < k <= n ==> Positive(cfg, inputs, k))
    && (forall j: nat :: j < n && NoReset(inputs, j, n) && Detects(cfg, inputs, j) ==> n - j >= Suppressed(cfg) + Needed(cfg))
  }

  // ---------------------------------------------------------------- the machine

  function Before(cfg: Config, inputs: seq<Input>, n: nat): State
    requires n <= |inputs|
  {
    After(cfg, INIT, inputs[..n])
  }

  function Emitted(cfg: Config, inputs: seq<Input>, n: nat): Option<Event>
    requires n < |inputs|
  {
    Next(cfg, Before(cfg, inputs, n), inputs[n]).1
  }

  lemma BeforeStep(cfg: Config, inputs: seq<Input>, n: nat)
    requires n < |inputs|
    ensures Before(cfg, inputs, n + 1) == Next(cfg, Before(cfg, inputs, n), inputs[n]).0
  {
    assert inputs[..n + 1][..n] == inputs[..n];
  }

  lemma BeforeStart(cfg: Config, inputs: seq<Input>)
    ensures Before(cfg, inputs, 0) == INIT
  {
  }

  /** The last event since the last reset. */
  function LastEvent(cfg: Config, inputs: seq<Input>, n: nat): (e: Option<nat>)
    requires n <= |inputs|
    ensures e.Some? ==> e.value < n
    decreases n
  {
    if n == 0 || inputs[n - 1].Reset? then None
    else if Emitted(cfg, inputs, n - 1).Some? then Some(n - 1)
    else LastEvent(cfg, inputs, n - 1)
  }

  /** The countdown suppresses frame n. */
  predicate Cooling(cfg: Config, e: Option<nat>, n: int) {
    e.Some? && n <= e.value + Suppressed(cfg)
  }

  lemma OneInput(cfg: Config, s: State, i: Input)
    ensures var n, ev := Next(cfg, s, i).0, Next(cfg, s, i).1;
            && (ev.Some? <==> i.Frame? && s.refractory <= 0 && i.score >= cfg.threshold && s.consecutive + 1 >= Needed(cfg))
            && n.refractory == (if i.Reset? then 0 else if ev.Some? then cfg.refractoryFrames
                                else if s.refractory > 0 then s.refractory - 1 else s.refractory)
            && n.consecutive == (if i.Frame? && s.refractory <= 0 && i.score >= cfg.threshold && ev.None? then s.consecutive + 1 else 0)
  {
  }

  /** The countdown is positive exactly while frames are suppressed, and then says for how many more. */
  predicate CountdownAt(cfg: Config, e: Option<nat>, r: int, n: nat) {
    if Cooling(cfg, e, n) then r == e.value + Suppressed(cfg) + 1 - n else r <= 0
  }

  lemma {:induction false} CountdownIs(cfg: Config, inputs: seq<Input>, n: nat)
    requires n <= |inputs|
    ensures CountdownAt(cfg, LastEvent(cfg, inputs, n), Before(cfg, inputs, n).refractory, n)
    decreases n
  {
    if n == 0 {
      BeforeStart(cfg, inputs);
    } else {
      hide Before, Next;
      CountdownIs(cfg, inputs, n - 1);
      BeforeStep(cfg, inputs, n - 1);
      OneInput(cfg, Before(cfg, inputs, n - 1), inputs[n - 1]);
    }
  }

  /** A frame that counts towards the next event. */
  predicate Counts(cfg: Config, inputs: seq<Input>, e: Option<nat>, k: int) {
    Positive(cfg, inputs, k) && !Cooling(cfg, e, k)
  }

  /** c is the length of the unbroken stretch of counting frames that ends just before n. */
  ghost predicate StretchIs(cfg: Config, inputs: seq<Input>, e: Option<nat>, n: nat, c: int) {
    && 0 <= c <= n && c < Needed(cfg)
    && (forall k :: n - c <= k < n ==> Counts(cfg, inputs, e, k))
    && (c < n ==> !Counts(cfg, inputs, e, n - c - 1))
  }

  lemma {:induction false} CountIs(cfg: Config, inputs: seq<Input>, n: nat)
    requires n <= |inputs|
    ensures StretchIs(cfg, inputs, LastEvent(cfg, inputs, n), n, Before(cfg, inputs, n).consecutive)
    decreases n
  {
    if n == 0 {
      BeforeStart(cfg, inputs);
    } else {
      var m: nat := n - 1;
      hide Before, Next;
      CountIs(cfg, inputs, m);
      CountdownIs(cfg, inputs, m);
      BeforeStep(cfg, inputs, m);
      OneInput(cfg, Before(cfg, inputs, m), inputs[m]);
    }
  }

  /** The events since the last reset all precede the last one. */
  lemma {:induction false} LastEventIsLast(cfg: Config, inputs: seq<Input>, n: nat)
    requires n <= |inputs|
    ensures var e := LastEvent(cfg, inputs, n);
            && (e.Some? ==> NoReset(inputs, e.value, n) && Emitted(cfg, inputs, e.value).Some?)
            && forall j: nat :: j < n && NoReset(inputs, j, n) && Emitted(cfg, inputs, j).Some? ==> e.Some? && j <= e.value
    decreases n
  {
    hide Emitted, NoReset;
    if n > 0 {
      var m: nat := n - 1;
      LastEventIsLast(cfg, inputs, m);
      EmitterIsFrame(cfg, inputs, m);
      forall j: nat | j < n && Emitted(cfg, inputs, j).Some?
        ensures NoReset(inputs, j, n) <==> j == m || (inputs[m].Frame? && NoReset(inputs, j, m))
      {
        NoResetGrows(inputs, j, m);
      }
    }
  }

  lemma EmitterIsFrame(cfg: Config, inputs: seq<Input>, n: nat)
    requires n < |inputs|
    ensures Emitted(cfg, inputs, n).Some? ==> inputs[n].Frame?
  {
  }

  lemma NoResetGrows(inputs: seq<Input>, j: nat, m: nat)
    requires j <= m < |inputs|
    ensures NoReset(inputs, j, m + 1) <==> j == m || (inputs[m].Frame? && NoReset(inputs, j, m))
  {
    if j < m && NoReset(inputs, j, m + 1) { assert inputs[m].Frame?; }
  }

  /** The machine emits at input n exactly when the last M inputs are positive and past what the last event suppresses. */
  lemma EmitsByLast(cfg: Config, inputs: seq<Input>, n: nat)
    requires n < |inputs|
    ensures var e := LastEvent(cfg, inputs, n);
            Emitted(cfg, inputs, n).Some? <==>
            (forall k :: n - Needed(cfg) < k <= n ==> Counts(cfg, inputs, e, k))
  {
    var e, c, m := LastEvent(cfg, inputs, n), Before(cfg, inputs, n).consecutive, Needed(cfg);
    CountIs(cfg, inputs, n);
    CountdownIs(cfg, inputs, n);
    OneInput(cfg, Before(cfg, inputs, n), inputs[n]);
    hide Before, Next, LastEvent;
    assert Emitted(cfg, inputs, n).Some? <==> Counts(cfg, inputs, e, n) && c + 1 >= m;
    if c + 1 < m && c < n { assert !Counts(cfg, inputs, e, n - c - 1); }
    if c + 1 < m && c == n { assert !Counts(cfg, inputs, e, -1); }
  }

  /** All of the last M frames are past what e suppresses exactly when n is. */
  lemma PastSuppression(cfg: Config, inputs: seq<Input>, e: Option<nat>, n: nat)
    ensures (forall k :: n - Needed(cfg) < k <= n ==> Counts(cfg, inputs, e, k)) <==>
            && (forall k :: n - Needed(cfg) < k <= n ==> Positive(cfg, inputs, k))
            && (e.Some? ==> n - e.value >= Suppressed(cfg) + Needed(cfg))
  {
    var first := n - Needed(cfg) + 1;
    if forall k :: n - Needed(cfg) < k <= n ==> Counts(cfg, inputs, e, k) {
      assert Counts(cfg, inputs, e, first);
      forall k | n - Needed(cfg) < k <= n
        ensures Positive(cfg, inputs, k)
      {
        assert Counts(cfg, inputs, e, k);
      }
    }
  }

  /** The same in terms of all earlier events. */
  lemma EmitsIff(cfg: Config, inputs: seq<Input>, n: nat)
    requires n < |inputs|
    ensures Emitted(cfg, inputs, n).Some? <==>
            && (forall k :: n - Needed(cfg) < k <= n ==> Positive(cfg, inputs, k))
            && (forall j: nat :: j < n && NoReset(inputs, j, n) && Emitted(cfg, inputs, j).Some? ==> n - j >= Suppressed(cfg) + Needed(cfg))
  {
    EmitsByLast(cfg, inputs, n);
    PastSuppression(cfg, inputs, LastEvent(cfg, inputs, n), n);
    LastEventIsLast(cfg, inputs, n);
    hide LastEvent, Emitted, NoReset, Positive, Counts;
  }

  // ---------------------------------------------------------------- the machine does what is described

  lemma {:induction false} EmitsAsDescribed(cfg: Config, inputs: seq<Input>, n: nat)
    requires n <= |inputs|
    ensures forall j: nat :: j < n ==> (Emitted(cfg, inputs, j).Some? <==> Detects(cfg, inputs, j))
    decreases n
  {
    if n > 0 {
      hide Emitted, NoReset, Positive;
      EmitsAsDescribed(cfg, inputs, n - 1);
      EmitsIff(cfg, inputs, n - 1);
    }
  }

  /**
   Over any frames and resets: input n emits an event exactly when the description says so, and the event carries
   that frame's score and timestamp.
  */
  lemma EmitsExactly(cfg: Config, inputs: seq<Input>, n: nat)
    requires n < |inputs|
    ensures Emitted(cfg, inputs, n).Some? <==> Detects(cfg, inputs, n)
    ensures Emitted(cfg, inputs, n).Some? ==>
              && inputs[n].Frame?
              && Emitted(cfg, inputs, n).value.confidence == inputs[n].score
              && Emitted(cfg, inputs, n).value.timestamp == inputs[n].ts
  {
    EmitsAsDescribed(cfg, inputs, n + 1);
    hide Before, Detects;
  }

  /** A reset ends the countdown: M positive frames right after one, or at the start, end in an event. */
  lemma ResetEndsCountdown(cfg: Config, inputs: seq<Input>, n: nat)
    requires n < |inputs| && n - Needed(cfg) >= -1 && (n - Needed(cfg) >= 0 ==> inputs[n - Needed(cfg)].Reset?)
    requires forall k :: n - Needed(cfg) < k <= n ==> Positive(cfg, inputs, k)
    ensures Emitted(cfg, inputs, n).Some?
  {
    var first := n - Needed(cfg);
    EmitsIff(cfg, inputs, n);
    assert !Positive(cfg, inputs, first);
    hide Emitted;
    forall j: nat | j < n && Emitted(cfg, inputs, j).Some?
      ensures !NoReset(inputs, j, n)
    {
      EmitterIsFrame(cfg, inputs, j);
      if j > first { EmitsIff(cfg, inputs, j); }
    }
  }
}
