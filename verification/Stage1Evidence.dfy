/**
 What stands behind an event of Stage1Detector: the window the backends saw, and the run of positive
 inferences that led to it.
*/
module Stage1Evidence {
  import opened Stage1Detection
  import opened Stage1Runs
  import opened Wrappers

  // ---------------------------------------------------------------- the window

  /** All feature rows since construction or the last reset. */
  function Rows(inputs: seq<Input>): seq<Row> {
    if inputs == [] then []
    else match inputs[|inputs| - 1]
         case Push(f) => Rows(inputs[..|inputs| - 1]) + [f.mel]
         case Reset => []
  }

  /** The last w rows, or all of them. */
  function Latest(rows: seq<Row>, w: nat): seq<Row> {
    if |rows| <= w then rows else rows[|rows| - w..]
  }

  predicate Holds(cfg: Config, s: State, rows: seq<Row>)
    requires |s.window| == cfg.windowFrames
  {
    && s.filled == |Latest(rows, cfg.windowFrames)| <= cfg.windowFrames
    && s.window[..s.filled] == Latest(rows, cfg.windowFrames)
  }

  lemma AppendHolds(cfg: Config, s: State, rows: seq<Row>, row: Row)
    requires cfg.Valid() && |s.window| == cfg.windowFrames && Holds(cfg, s, rows)
    ensures Holds(cfg, Appended(cfg, s, row), rows + [row])
  {
    var w, n := cfg.windowFrames, Appended(cfg, s, row);
    if s.filled < w {
      assert n.window[..n.filled] == s.window[..s.filled] + [row];
    } else {
      assert n.window[..n.filled] == s.window[1..] + [row];
      assert Latest(rows + [row], w) == Latest(rows, w)[1..] + [row];
    }
  }

  lemma {:induction false} WindowHoldsLatest(cfg: Config, inputs: seq<Input>)
    requires cfg.Valid()
    ensures Holds(cfg, After(cfg, inputs), Rows(inputs))
    decreases |inputs|
  {
    if inputs != [] {
      var front, last := inputs[..|inputs| - 1], inputs[|inputs| - 1];
      WindowHoldsLatest(cfg, front);
      var s := After(cfg, front);
      if last.Push? {
        AppendHolds(cfg, s, Rows(front), last.frame.mel);
        PushKeepsWindow(cfg, s, last.frame);
      }
      hide Appended, Pushed;
    }
  }

  /** After the row has been taken in, nothing in the frame's handling touches the window. */
  lemma PushKeepsWindow(cfg: Config, s: State, f: Frame)
    requires cfg.Valid() && |s.window| == cfg.windowFrames
    ensures Pushed(cfg, s, f).0.window == Appended(cfg, s, f.mel).window == Arrived(cfg, s, f).window
    ensures Pushed(cfg, s, f).0.filled == Appended(cfg, s, f.mel).filled == Arrived(cfg, s, f).filled
  {
  }

  // ---------------------------------------------------------------- the inferences

  /** Stage-1's answer at input i, if an inference ran there and succeeded. */
  function Score(cfg: Config, inputs: seq<Input>, i: nat): Option<real>
    requires cfg.Valid() && i < |inputs|
  {
    match inputs[i]
    case Reset => None
    case Push(f) =>
      var a := Arrived(cfg, After(cfg, inputs[..i]), f);
      if Ready(cfg, a, f.speech) then f.stage1(a.window) else None
  }

  predicate Positive(cfg: Config, inputs: seq<Input>, i: nat)
    requires cfg.Valid() && i < |inputs|
  {
    Score(cfg, inputs, i).Some? && Score(cfg, inputs, i).value >= cfg.threshold
  }

  predicate Negative(cfg: Config, inputs: seq<Input>, i: nat)
    requires cfg.Valid() && i < |inputs|
  {
    Score(cfg, inputs, i).Some? && Score(cfg, inputs, i).value < cfg.threshold
  }

  /** Stage-1 fired at input i. */
  predicate Fired(cfg: Config, inputs: seq<Input>, i: nat)
    requires cfg.Valid() && i < |inputs|
  {
    Positive(cfg, inputs, i) && After(cfg, inputs[..i]).consecutive + 1 >= cfg.Needed()
  }

  lemma ArrivedHolds(cfg: Config, inputs: seq<Input>, i: nat)
    requires cfg.Valid() && i < |inputs| && inputs[i].Push?
    ensures var a := Arrived(cfg, After(cfg, inputs[..i]), inputs[i].frame);
            |a.window| == cfg.windowFrames && Holds(cfg, a, Rows(inputs[..i + 1]))
  {
    WindowHoldsLatest(cfg, inputs[..i + 1]);
    AfterStep(cfg, inputs, i);
    PushKeepsWindow(cfg, After(cfg, inputs[..i]), inputs[i].frame);
    hide After, Rows, Arrived, Pushed, Appended, Latest;
  }

  lemma FullWindow(cfg: Config, s: State, rows: seq<Row>)
    requires |s.window| == cfg.windowFrames && Holds(cfg, s, rows) && s.filled >= cfg.windowFrames
    ensures s.window == Latest(rows, cfg.windowFrames) && |rows| >= cfg.windowFrames
  {
    assert s.window[..cfg.windowFrames] == s.window;
  }

  lemma ScoreUnfolds(cfg: Config, inputs: seq<Input>, i: nat)
    requires cfg.Valid() && i < |inputs| && Score(cfg, inputs, i).Some?
    ensures inputs[i].Push?
    ensures var a := Arrived(cfg, After(cfg, inputs[..i]), inputs[i].frame);
            a.filled >= cfg.windowFrames && Score(cfg, inputs, i) == inputs[i].frame.stage1(a.window)
  {
    hide After, Arrived;
  }

  /** An inference sees exactly the latest windowFrames rows, in order. */
  lemma InferenceSeesLatest(cfg: Config, inputs: seq<Input>, i: nat)
    requires cfg.Valid() && i < |inputs| && Score(cfg, inputs, i).Some?
    ensures inputs[i].Push? && |Rows(inputs[..i + 1])| >= cfg.windowFrames
    ensures Score(cfg, inputs, i) == inputs[i].frame.stage1(Latest(Rows(inputs[..i + 1]), cfg.windowFrames))
    ensures Arrived(cfg, After(cfg, inputs[..i]), inputs[i].frame).window == Latest(Rows(inputs[..i + 1]), cfg.windowFrames)
  {
    ScoreUnfolds(cfg, inputs, i);
    hide *;
    ArrivedHolds(cfg, inputs, i);
    FullWindow(cfg, Arrived(cfg, After(cfg, inputs[..i]), inputs[i].frame), Rows(inputs[..i + 1]));
  }

  /** What an event says about the inference of its frame. */
  lemma EventMeansFired(cfg: Config, inputs: seq<Input>, i: nat)
    requires cfg.Valid() && i < |inputs| && Emitted(cfg, inputs, i).Some?
    ensures inputs[i].Push? && Fired(cfg, inputs, i)
    ensures var f, e := inputs[i].frame, Emitted(cfg, inputs, i).value;
            && e.timestamp == f.timestamp
            && if cfg.stage2Active
               then f.stage2(Latest(Rows(inputs[..i + 1]), cfg.windowFrames)) == Some(e.confidence) && e.confidence >= cfg.stage2Threshold
               else Some(e.confidence) == Score(cfg, inputs, i)
  {
    var s, f := After(cfg, inputs[..i]), inputs[i].frame;
    ArrivedKeepsCount(cfg, s, f);
    hide After, Rows, Arrived;
    InferenceSeesLatest(cfg, inputs, i);
  }

  lemma ArrivedKeepsCount(cfg: Config, s: State, f: Frame)
    requires cfg.Valid() && |s.window| == cfg.windowFrames
    ensures Arrived(cfg, s, f).consecutive == s.consecutive
  {
  }

  // ---------------------------------------------------------------- the positive run

  /** The positive inferences that count towards the next fire. */
  function Evidence(cfg: Config, inputs: seq<Input>): (e: seq<nat>)
    requires cfg.Valid()
    decreases |inputs|
  {
    if inputs == [] then []
    else
      var i := |inputs| - 1;
      if inputs[i].Reset? || Negative(cfg, inputs, i) || Fired(cfg, inputs, i) then []
      else if Positive(cfg, inputs, i) then Evidence(cfg, inputs[..i]) + [i]
      else Evidence(cfg, inputs[..i])
  }

  lemma CountStep(cfg: Config, inputs: seq<Input>, i: nat)
    requires cfg.Valid() && i < |inputs|
    ensures var s := After(cfg, inputs[..i]);
            Next(cfg, s, inputs[i]).0.consecutive ==
              if inputs[i].Reset? || Negative(cfg, inputs, i) || Fired(cfg, inputs, i) then 0
              else if Positive(cfg, inputs, i) then s.consecutive + 1
              else s.consecutive
  {
    if inputs[i].Push? {
      ArrivedKeepsCount(cfg, After(cfg, inputs[..i]), inputs[i].frame);
    }
    hide After, Arrived;
  }

  lemma {:induction false} CountIsEvidence(cfg: Config, inputs: seq<Input>)
    requires cfg.Valid()
    ensures After(cfg, inputs).consecutive == |Evidence(cfg, inputs)|
    ensures |Evidence(cfg, inputs)| < cfg.Needed()
    decreases |inputs|
  {
    if inputs != [] {
      var i := |inputs| - 1;
      CountIsEvidence(cfg, inputs[..i]);
      CountStep(cfg, inputs, i);
      assert After(cfg, inputs) == Next(cfg, After(cfg, inputs[..i]), inputs[i]).0;
      hide After, Next, Negative, Score;
    }
  }

  /** e lists, in order, every positive inference from e[0] on; none was negative, nothing fired or was reset since. */
  ghost predicate Unbroken(cfg: Config, inputs: seq<Input>, e: seq<nat>, n: nat)
    requires cfg.Valid() && n <= |inputs|
  {
    && (forall k :: 0 <= k < |e| ==> e[k] < n && Positive(cfg, inputs, e[k]))
    && (forall j, k :: 0 <= j < k < |e| ==> e[j] < e[k])
    && (e != [] ==> forall q: nat :: e[0] <= q < n ==> Quiet(cfg, inputs, q) && (Positive(cfg, inputs, q) ==> q in e))
  }

  /** Input q neither resets, nor is negative, nor fires. */
  predicate Quiet(cfg: Config, inputs: seq<Input>, q: nat)
    requires cfg.Valid() && q < |inputs|
  {
    inputs[q].Push? && !Negative(cfg, inputs, q) && !Fired(cfg, inputs, q)
  }

  lemma SamePast(cfg: Config, inputs: seq<Input>, n: nat, q: nat)
    requires cfg.Valid() && q < n <= |inputs|
    ensures Positive(cfg, inputs[..n], q) == Positive(cfg, inputs, q)
    ensures Negative(cfg, inputs[..n], q) == Negative(cfg, inputs, q)
    ensures Fired(cfg, inputs[..n], q) == Fired(cfg, inputs, q)
  {
    assert inputs[..n][..q] == inputs[..q];
  }

  lemma {:induction false} EvidenceIsUnbroken(cfg: Config, inputs: seq<Input>, n: nat)
    requires cfg.Valid() && n <= |inputs|
    ensures Unbroken(cfg, inputs, Evidence(cfg, inputs[..n]), n)
    decreases n
  {
    if n > 0 {
      var i := n - 1;
      assert inputs[..n][..i] == inputs[..i];
      EvidenceIsUnbroken(cfg, inputs, i);
      SamePast(cfg, inputs, n, i);
      var before, now := Evidence(cfg, inputs[..i]), Evidence(cfg, inputs[..n]);
      assert inputs[..n][i] == inputs[i];
      hide Positive, Negative, Fired;
      if now != [] { OneMore(cfg, inputs, before, now, i); }
    }
  }

  lemma OneMore(cfg: Config, inputs: seq<Input>, before: seq<nat>, now: seq<nat>, i: nat)
    requires cfg.Valid() && i < |inputs| && Unbroken(cfg, inputs, before, i) && Quiet(cfg, inputs, i)
    requires now == if Positive(cfg, inputs, i) then before + [i] else before
    ensures Unbroken(cfg, inputs, now, i + 1)
  {
    hide Positive, Negative, Fired, Quiet;
    if Positive(cfg, inputs, i) {
      assert now[|before|] == i;
      assert forall q :: q in before ==> q in now;
    }
  }

  /**
   Every event is backed by Needed() successful inferences at or above the threshold since the last
   Stage-1 fire or reset, with no successful inference below it in between and the last at the event's
   own frame, on exactly the latest rows; and by the verifier's agreement when there is one.
  */
  lemma EventIsBacked(cfg: Config, inputs: seq<Input>, i: nat) returns (e: seq<nat>)
    requires cfg.Valid() && i < |inputs| && Emitted(cfg, inputs, i).Some?
    ensures |e| == cfg.Needed() && e[|e| - 1] == i && Unbroken(cfg, inputs, e[..|e| - 1], i)
    ensures Positive(cfg, inputs, i) && inputs[i].Push?
    ensures Score(cfg, inputs, i) == inputs[i].frame.stage1(Latest(Rows(inputs[..i + 1]), cfg.windowFrames))
    ensures |Latest(Rows(inputs[..i + 1]), cfg.windowFrames)| == cfg.windowFrames
    ensures cfg.stage2Active ==>
              var verdict := inputs[i].frame.stage2(Latest(Rows(inputs[..i + 1]), cfg.windowFrames));
              verdict.Some? && verdict.value >= cfg.stage2Threshold
  {
    EventMeansFired(cfg, inputs, i);
    InferenceSeesLatest(cfg, inputs, i);
    CountIsEvidence(cfg, inputs[..i]);
    EvidenceIsUnbroken(cfg, inputs, i);
    hide Unbroken, Rows, Evidence, After, Score, Emitted;
    var before := Evidence(cfg, inputs[..i]);
    e := before + [i];
    assert e[..|e| - 1] == before;
  }
}
