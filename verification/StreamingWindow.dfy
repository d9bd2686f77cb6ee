/**
 The mirrored ring of core/runtime/StreamingWindow.h: each row is written to slot `head` and to
 `head + windowFrames`, so that a contiguous view in temporal order is always available.
*/
module StreamingWindows {
  import opened Stage1Detection
  import opened Stage1Runs
  import opened Stage1Evidence

  /** The last w of w silent rows followed by the rows pushed. */
  function Windowed(rows: seq<Row>, silence: Row, w: nat): (r: seq<Row>)
    ensures |r| == w
  {
    (seq(w, _ => silence) + rows)[|rows|..]
  }

  lemma WindowedSlides(rows: seq<Row>, row: Row, silence: Row, w: nat)
    requires w >= 1
    ensures Windowed(rows + [row], silence, w) == Windowed(rows, silence, w)[1..] + [row]
  {
    var z: seq<Row> := seq(w, _ => silence);
    assert z + (rows + [row]) == (z + rows) + [row];
  }

  /** The first half is repeated in the second. */
  ghost predicate Mirrored(st: seq<Row>, w: nat) {
    |st| == 2 * w && forall i :: 0 <= i < w ==> st[i] == st[i + w]
  }

  /** Writing both copies and moving on slides the view by one row. */
  lemma MirrorStep(st: seq<Row>, w: nat, h: nat, row: Row)
    requires Mirrored(st, w) && h < w
    ensures var n := st[h := row][h + w := row];
            var next := if h + 1 == w then 0 else h + 1;
            Mirrored(n, w) && n[next..next + w] == st[h..h + w][1..] + [row]
  {
    var n := st[h := row][h + w := row];
    var next := if h + 1 == w then 0 else h + 1;
    var view, slid := n[next..next + w], st[h..h + w][1..] + [row];
    forall i | 0 <= i < w
      ensures view[i] == slid[i]
    {
      if h + 1 == w && i < w - 1 { assert st[i] == st[i + w]; }
    }
  }

  class StreamingWindow {
    const windowFrames: nat
    const silence: Row
    const storage: array<Row>
    var head: nat
    var filled: nat
    var pushRowCopies: nat
    ghost var pushed: seq<Row>   // since construction or reset

    ghost predicate Shape() {
      windowFrames >= 1 && storage.Length == 2 * windowFrames
    }

    ghost predicate Valid()
      reads this, storage
    {
      && Shape() && head < windowFrames
      && Mirrored(storage[..], windowFrames)
      && storage[..][head..head + windowFrames] == Windowed(pushed, silence, windowFrames)
      && filled == (if |pushed| < windowFrames then |pushed| else windowFrames)
      && pushRowCopies == 2 * |pushed|
    }

    constructor (windowFrames: nat, silence: Row)
      requires windowFrames >= 1
      ensures Valid() && fresh(storage) && pushed == [] && this.windowFrames == windowFrames && this.silence == silence
    {
      this.windowFrames, this.silence := windowFrames, silence;
      storage := new Row[2 * windowFrames](_ => silence);
      head, filled, pushRowCopies, pushed := 0, 0, 0, [];
    }

    method Reset()
      requires Shape()
      modifies this, storage
      ensures Valid() && pushed == []
    {
      forall i | 0 <= i < storage.Length {
        storage[i] := silence;
      }
      head, filled, pushRowCopies, pushed := 0, 0, 0, [];
    }

    method Push(row: Row)
      requires Valid()
      modifies this, storage
      ensures Valid() && pushed == old(pushed) + [row]
    {
      hide Windowed, Mirrored;
      ghost var st := storage[..];
      MirrorStep(st, windowFrames, head, row);
      WindowedSlides(pushed, row, silence, windowFrames);
      WriteBoth(row);
      head := if head + 1 == windowFrames then 0 else head + 1;
      if filled < windowFrames {
        filled := filled + 1;
      }
      pushRowCopies := pushRowCopies + 2;
      pushed := pushed + [row];
    }

    /** The live slot and its mirror. */
    method WriteBoth(row: Row)
      requires Shape() && head < windowFrames
      modifies storage
      ensures storage[..] == old(storage[..])[head := row][head + windowFrames := row]
    {
      storage[head] := row;
      storage[head + windowFrames] := row;
    }

    /** Oldest to newest, with the silent pre-roll while fewer than windowFrames rows are in. */
    method View() returns (view: seq<Row>)
      requires Valid()
      ensures view == Windowed(pushed, silence, windowFrames)
      ensures |pushed| >= windowFrames ==> view == pushed[|pushed| - windowFrames..]
    {
      assert storage[..][head..head + windowFrames] == storage[head..head + windowFrames];
      view := storage[head..head + windowFrames];
    }

    /** i == 0 is the oldest slot, i == windowFrames - 1 the row just pushed. */
    method FrameAt(i: nat) returns (row: Row)
      requires Valid() && i < windowFrames
      ensures row == Windowed(pushed, silence, windowFrames)[i]
      ensures pushed != [] && i == windowFrames - 1 ==> row == pushed[|pushed| - 1]
    {
      row := storage[head + i];
      assert row == storage[..][head..head + windowFrames][i];
    }
  }

  // ---------------------------------------------------------------- against the detector's window

  ghost predicate AllSilent(rows: seq<Row>, silence: Row) {
    forall i :: 0 <= i < |rows| ==> rows[i] == silence
  }

  /** The detector's window: its filled part is the latest rows, the rest has never been written. */
  ghost predicate FrontFilled(cfg: Config, s: State, rows: seq<Row>)
    requires |s.window| == cfg.windowFrames
  {
    Holds(cfg, s, rows) && AllSilent(s.window[s.filled..], cfg.silence)
  }

  lemma AppendKeepsRest(cfg: Config, s: State, rows: seq<Row>, row: Row)
    requires cfg.Valid() && |s.window| == cfg.windowFrames && FrontFilled(cfg, s, rows)
    ensures FrontFilled(cfg, Appended(cfg, s, row), rows + [row])
  {
    AppendHolds(cfg, s, rows, row);
    hide Holds;
    var n := Appended(cfg, s, row);
    if s.filled < cfg.windowFrames {
      assert n.window[n.filled..] == s.window[s.filled..][1..];
    } else {
      assert n.window[n.filled..] == [];
    }
  }

  lemma {:induction false} WindowIsFrontFilled(cfg: Config, inputs: seq<Input>)
    requires cfg.Valid()
    ensures FrontFilled(cfg, After(cfg, inputs), Rows(inputs))
    decreases |inputs|
  {
    if inputs != [] {
      var front, last := inputs[..|inputs| - 1], inputs[|inputs| - 1];
      WindowIsFrontFilled(cfg, front);
      var s := After(cfg, front);
      if last.Push? {
        AppendKeepsRest(cfg, s, Rows(front), last.frame.mel);
        PushKeepsWindow(cfg, s, last.frame);
      }
      hide Appended, Pushed;
    }
  }

  /** Rows at the front and rows at the back agree only if every row is the filler. */
  lemma {:induction false} Descend(rows: seq<Row>, silence: Row, gap: nat, i: nat)
    requires gap >= 1 && i < |rows|
    requires rows + seq(gap, _ => silence) == seq(gap, _ => silence) + rows
    ensures rows[i] == silence
    decreases i
  {
    var pad: seq<Row> := seq(gap, _ => silence);
    assert (rows + pad)[i] == (pad + rows)[i];
    if i >= gap { Descend(rows, silence, gap, i - gap); }
  }

  /** Before the window is full: one layout is rows then silence, the other silence then rows. */
  lemma PartlyFilled(cfg: Config, s: State, rows: seq<Row>)
    requires cfg.Valid() && |s.window| == cfg.windowFrames && FrontFilled(cfg, s, rows) && |rows| < cfg.windowFrames
    ensures s.window == Windowed(rows, cfg.silence, cfg.windowFrames) <==> AllSilent(rows, cfg.silence)
  {
    var w, n := cfg.windowFrames, |rows|;
    var pad: seq<Row> := seq(w - n, _ => cfg.silence);
    assert s.window == s.window[..n] + s.window[n..];
    assert s.window[n..] == pad;
    assert Windowed(rows, cfg.silence, w) == pad + rows;
    if s.window == Windowed(rows, cfg.silence, w) {
      forall i | 0 <= i < n
        ensures rows[i] == cfg.silence
      {
        Descend(rows, cfg.silence, w - n, i);
      }
    }
    if AllSilent(rows, cfg.silence) {
      assert rows + pad == pad + rows;
    }
  }

  /**
   The view is the window the detector maintains by shifting exactly when windowFrames rows are in, or
   every row so far is silent: until then the detector fills from the front and the ring from the back.
  */
  lemma AgreesWithDetectorIff(cfg: Config, inputs: seq<Input>)
    requires cfg.Valid()
    ensures After(cfg, inputs).window == Windowed(Rows(inputs), cfg.silence, cfg.windowFrames)
       <==> |Rows(inputs)| >= cfg.windowFrames || AllSilent(Rows(inputs), cfg.silence)
  {
    WindowIsFrontFilled(cfg, inputs);
    var s, rows := After(cfg, inputs), Rows(inputs);
    hide After, Rows;
    if |rows| < cfg.windowFrames {
      PartlyFilled(cfg, s, rows);
    } else {
      FullHolds(cfg, s, rows);
    }
  }

  /** In particular they agree from the frame on at which the detector may run an inference. */
  lemma AgreesWithDetectorWhenFull(cfg: Config, inputs: seq<Input>)
    requires cfg.Valid() && |Rows(inputs)| >= cfg.windowFrames
    ensures After(cfg, inputs).window == Windowed(Rows(inputs), cfg.silence, cfg.windowFrames)
  {
    AgreesWithDetectorIff(cfg, inputs);
  }

  lemma FullHolds(cfg: Config, s: State, rows: seq<Row>)
    requires |s.window| == cfg.windowFrames && Holds(cfg, s, rows) && |rows| >= cfg.windowFrames
    ensures s.window == Windowed(rows, cfg.silence, cfg.windowFrames)
  {
    assert s.window[..cfg.windowFrames] == s.window;
    assert Latest(rows, cfg.windowFrames) == rows[|rows| - cfg.windowFrames..];
  }

  /** A witness: one row that is not silent. */
  lemma DiffersBeforeFull(cfg: Config, f: Frame)
    requires cfg.Valid() && cfg.windowFrames >= 2 && f.mel != cfg.silence
    ensures After(cfg, [Push(f)]).window[0] == f.mel && Windowed([f.mel], cfg.silence, cfg.windowFrames)[0] == cfg.silence
    ensures After(cfg, [Push(f)]).window != Windowed([f.mel], cfg.silence, cfg.windowFrames)
  {
    var inputs := [Push(f)];
    WindowHoldsLatest(cfg, inputs);
    assert Rows(inputs) == [f.mel] by { assert inputs[..0] == []; }
    hide After, Rows;
    assert After(cfg, inputs).window[..1][0] == f.mel;
  }
}
