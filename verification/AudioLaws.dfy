/**
 What reaches the sink, in terms of what was recorded: the first channel's samples of interleaved frames,
 cut into slots in order, with the ring's policy deciding which slots are lost, and a fresh conversion after
 every change of rate.
*/
module AudioLaws {
  import opened Arithmetic
  import opened AudioPipelines
  import opened AudioRuns
  import opened Resampling
  import opened ResamplerResponse
  import opened RingBuffers
  import opened Wrappers

  // ---------------------------------------------------------------- interleaved frames

  /** Each frame holds one sample per channel. */
  ghost predicate Even<T>(frames: seq<seq<T>>, channels: nat) {
    forall i :: 0 <= i < |frames| ==> |frames[i]| == channels
  }

  /** Frame after frame. */
  function Interleaved<T>(frames: seq<seq<T>>): seq<T> {
    if frames == [] then [] else Interleaved(frames[..|frames| - 1]) + frames[|frames| - 1]
  }

  lemma {:induction false} InterleavedLength<T>(frames: seq<seq<T>>, channels: nat)
    requires Even(frames, channels)
    ensures |Interleaved(frames)| == |frames| * channels
  {
    if frames != [] {
      var n := |frames| - 1;
      InterleavedLength(frames[..n], channels);
      assert |frames| * channels == n * channels + channels;
    }
  }

  lemma {:induction false} InterleavedAt<T>(frames: seq<seq<T>>, channels: nat, i: nat)
    requires Even(frames, channels) && channels >= 1 && i < |frames|
    ensures 0 <= i * channels < |Interleaved(frames)| && Interleaved(frames)[i * channels] == frames[i][0]
    decreases |frames|
  {
    var front := frames[..|frames| - 1];
    InterleavedLength(front, channels);
    if i < |front| { InterleavedAt(front, channels, i); }
  }

  /** One captured block, frame by frame. */
  datatype Recording =
    | F32(reals: seq<seq<real>>, channels: nat, rate: nat, time: nat)
    | I16(shorts: seq<seq<int>>, channels: nat, rate: nat, time: nat)
  {
    function Width(): nat {
      if channels == 0 then 1 else channels
    }

    ghost predicate Valid() {
      if F32? then Even(reals, Width()) else Even(shorts, Width())
    }

    function Length(): nat {
      if F32? then |reals| else |shorts|
    }
  }

  /** What the platform hands over. */
  function AsCapture(r: Recording): Capture {
    match r
    case F32(x, ch, rate, time) => Capture(|x|, ch, rate, Floats(Interleaved(x)), time)
    case I16(x, ch, rate, time) => Capture(|x|, ch, rate, Shorts(Interleaved(x)), time)
  }

  /** The first channel of the first 512 frames; shorts are scaled to [-1, 1). */
  function FirstChannel(r: Recording): (s: seq<real>)
    requires r.Valid()
  {
    var n := if r.Length() < 512 then r.Length() else 512;
    seq(n, i requires 0 <= i < n => if r.F32? then r.reals[i][0] else r.shorts[i][0] as real / 32768.0)
  }

  lemma CaptureIsValid(r: Recording)
    requires r.Valid()
    ensures AsCapture(r).Valid() && AsCapture(r).data != Nothing
  {
    if r.F32? { InterleavedLength(r.reals, r.Width()); } else { InterleavedLength(r.shorts, r.Width()); }
  }

  /** The downmix is the first channel, whatever the others hold. */
  lemma MonoIsFirstChannel(r: Recording)
    requires r.Valid()
    ensures AsCapture(r).Valid() && AsCapture(r).data != Nothing && Mono(AsCapture(r)) == FirstChannel(r)
  {
    CaptureIsValid(r);
    var c := AsCapture(r);
    forall i | 0 <= i < c.Count()
      ensures MonoAt(c, i) == FirstChannel(r)[i]
    {
      if r.F32? { InterleavedAt(r.reals, r.Width(), i); } else { InterleavedAt(r.shorts, r.Width(), i); }
    }
  }

  /** The events are these recordings in order, with the sink draining in between. */
  ghost predicate Records(events: seq<Event>, recs: seq<Recording>)
    decreases |events|
  {
    if events == [] then recs == []
    else
      match events[|events| - 1]
      case DrainAll => Records(events[..|events| - 1], recs)
      case Arrives(c) =>
        && recs != [] && recs[|recs| - 1].Valid() && c == AsCapture(recs[|recs| - 1])
        && Records(events[..|events| - 1], recs[..|recs| - 1])
  }

  ghost predicate AllValid(recs: seq<Recording>) {
    forall i :: 0 <= i < |recs| ==> recs[i].Valid()
  }

  function FirstChannels(recs: seq<Recording>): seq<real>
    requires AllValid(recs)
  {
    if recs == [] then [] else FirstChannels(recs[..|recs| - 1]) + FirstChannel(recs[|recs| - 1])
  }

  lemma {:induction false} RecordsAre(events: seq<Event>, recs: seq<Recording>)
    requires Records(events, recs)
    ensures WellFormed(events) && AllValid(recs)
    ensures Fed(Calls(events)) == FirstChannels(recs)
    decreases |events|
  {
    if events != [] {
      var front, last := events[..|events| - 1], events[|events| - 1];
      if last.DrainAll? {
        RecordsAre(front, recs);
      } else {
        var before, r := recs[..|recs| - 1], recs[|recs| - 1];
        RecordsAre(front, before);
        hide Records, Mono, FirstChannel, AsCapture, Calls, Fed, FirstChannels;
        MonoIsFirstChannel(r);
        MoreValid(events, recs);
        OneRecording(events, recs, r);
      }
    }
  }

  lemma MoreValid(events: seq<Event>, recs: seq<Recording>)
    requires events != [] && recs != [] && WellFormed(events[..|events| - 1]) && AllValid(recs[..|recs| - 1])
    requires events[|events| - 1].Arrives? && events[|events| - 1].c.Valid() && recs[|recs| - 1].Valid()
    ensures WellFormed(events) && AllValid(recs)
  {
    var front, before := events[..|events| - 1], recs[..|recs| - 1];
    assert forall i :: 0 <= i < |front| ==> events[i] == front[i];
    assert forall i :: 0 <= i < |before| ==> recs[i] == before[i];
  }

  lemma OneRecording(events: seq<Event>, recs: seq<Recording>, r: Recording)
    requires events != [] && recs != [] && WellFormed(events) && AllValid(recs) && recs[|recs| - 1] == r
    requires WellFormed(events[..|events| - 1]) && AllValid(recs[..|recs| - 1])
    requires Fed(Calls(events[..|events| - 1])) == FirstChannels(recs[..|recs| - 1])
    requires events[|events| - 1].Arrives? && events[|events| - 1].c.data != Nothing && events[|events| - 1].c.Valid()
    requires Mono(events[|events| - 1].c) == FirstChannel(r)
    ensures Fed(Calls(events)) == FirstChannels(recs)
  {
    hide Mono, FirstChannel, AsCapture;
    var calls, call := Calls(events[..|events| - 1]), Call(Mono(events[|events| - 1].c), OUT_CAP);
    assert Calls(events) == calls + [call];
    assert (calls + [call])[..|calls|] == calls;
  }

  /** At the engine's rate, or an unknown one, the stream is the first channel of everything recorded. */
  lemma StreamIsFirstChannel(u: Setup, rate: nat, events: seq<Event>, recs: seq<Recording>)
    requires u.Valid() && Records(events, recs) && WellFormed(events) && OneRate(events, rate) && (rate == 0 || rate == u.engineRate)
    requires AudioRuns.After(u, events).pipe.pending.drops == 0 && AllValid(recs)
    ensures Stream(AudioRuns.After(u, events)) == FirstChannels(recs)
  {
    RecordsAre(events, recs);
    CaptureToSinkUnconverted(u, rate, events);
  }

  /**
   At any other rate each sample of the stream is the sum over the first channel's samples of each one
   times its response at position k * rate / engineRate.
  */
  lemma StreamIsSuperposition(u: Setup, rate: nat, events: seq<Event>, recs: seq<Recording>, k: nat)
    requires u.Valid() && Records(events, recs) && WellFormed(events) && OneRate(events, rate) && rate != 0 && rate != u.engineRate
    requires AudioRuns.After(u, events).pipe.pending.drops == 0 && AllValid(recs)
    requires k < |Stream(AudioRuns.After(u, events))|
    ensures var rates, x := Rates(rate, u.engineRate), FirstChannels(recs);
            Stream(AudioRuns.After(u, events))[k] == Superposed(u.weights(rates), x, Place(rates, k), |x|)
  {
    var rates := Rates(rate, u.engineRate);
    assert rates.Valid() && NeedsResampling(rate, u.engineRate);
    hide *;
    RecordsAre(events, recs);
    CaptureToSinkAnyRate(u, rate, events);
    OutputIsCorrect(rates, u.weights(rates), Padded(Fed(Calls(events))), Stream(AudioRuns.After(u, events)), k);
    CorrectIsSuperposed(rates, u.weights(rates), Fed(Calls(events)), k, Stream(AudioRuns.After(u, events))[k]);
  }

  // ---------------------------------------------------------------- slots and the ring's policy

  /** The block in consecutive pieces of 512, the last one possibly shorter. */
  function Pieces(samples: seq<real>, timestamp: nat): (p: seq<PcmFrame>)
    ensures |p| == (|samples| + 511) / 512
  {
    seq((|samples| + 511) / 512, k requires 0 <= k < (|samples| + 511) / 512 =>
      PcmFrame(samples[512 * k..if 512 * (k + 1) < |samples| then 512 * (k + 1) else |samples|], timestamp))
  }

  lemma PiecesPeel(samples: seq<real>, timestamp: nat)
    requires samples != []
    ensures var c := SlotSize(samples);
            Pieces(samples, timestamp) == [PcmFrame(samples[..c], timestamp)] + Pieces(samples[c..], timestamp)
  {
    var c := SlotSize(samples);
    var rest := samples[c..];
    var p, q := Pieces(samples, timestamp), [PcmFrame(samples[..c], timestamp)] + Pieces(rest, timestamp);
    assert |p| == |q|;
    forall k | 0 <= k < |p|
      ensures p[k] == q[k]
    {
      if k > 0 {
        assert c == 512 && q[k] == Pieces(rest, timestamp)[k - 1];
        var hi := if 512 * (k + 1) < |samples| then 512 * (k + 1) else |samples|;
        assert rest[512 * (k - 1)..hi - 512] == samples[512 * k..hi];
      }
    }
  }

  /** The last n frames, or all. */
  function Newest(frames: seq<PcmFrame>, n: nat): seq<PcmFrame> {
    if |frames| <= n then frames else frames[|frames| - n..]
  }

  /** Making room for one more slot loses nothing that the limit would not cut off anyway. */
  lemma NewestStep(cap: nat, queue: seq<PcmFrame>, piece: PcmFrame, rest: seq<PcmFrame>)
    requires 1 <= cap && |queue| <= cap
    ensures var next := Room(cap, queue) + [piece];
            && |next| <= cap && |next| == |queue| + 1 - (if |queue| == cap then 1 else 0)
            && Newest(next + rest, cap) == Newest(queue + ([piece] + rest), cap)
  {
    var next, all := Room(cap, queue) + [piece], queue + ([piece] + rest);
    assert next + rest == if |queue| == cap then all[1..] else all;
  }

  /** Drop-oldest keeps the newest `cap` slots of those queued and those of the block, and counts the others as dropped. */
  lemma {:induction false} DropOldestKeepsNewest(cap: nat, p: Pending, samples: seq<real>, timestamp: nat)
    requires 1 <= cap && |p.queue| <= cap
    ensures var n, all := Slotted(cap, DropOldest, p, samples, timestamp), p.queue + Pieces(samples, timestamp);
            n.queue == Newest(all, cap) && n.drops == p.drops + |all| - |n.queue|
    decreases |samples|
  {
    if samples == [] {
      assert p.queue + Pieces(samples, timestamp) == p.queue;
    } else {
      var c, next := SlotSize(samples), OneSlot(cap, p, samples, timestamp);
      assert next == Pending(Room(cap, p.queue) + [PcmFrame(samples[..c], timestamp)], p.drops + if |p.queue| == cap then 1 else 0);
      assert Slotted(cap, DropOldest, p, samples, timestamp) == Slotted(cap, DropOldest, next, samples[c..], timestamp);
      hide Pieces, Slotted, OneSlot, SlotSize, Room;
      PiecesPeel(samples, timestamp);
      NewestStep(cap, p.queue, PcmFrame(samples[..c], timestamp), Pieces(samples[c..], timestamp));
      DropOldestKeepsNewest(cap, next, samples[c..], timestamp);
      hide Newest;
    }
  }

  /** Drop-newest keeps the first `cap`, and counts one drop if the block did not fit. */
  lemma {:induction false} DropNewestKeepsOldest(cap: nat, p: Pending, samples: seq<real>, timestamp: nat)
    requires 1 <= cap && |p.queue| <= cap
    ensures var n, all := Slotted(cap, DropNewest, p, samples, timestamp), p.queue + Pieces(samples, timestamp);
            if |all| <= cap then n == p.(queue := all) else n == Pending(all[..cap], p.drops + 1)
    decreases |samples|
  {
    if samples == [] {
      assert p.queue + Pieces(samples, timestamp) == p.queue;
    } else {
      PiecesPeel(samples, timestamp);
      var all := p.queue + Pieces(samples, timestamp);
      if |p.queue| == cap {
        assert all[..cap] == p.queue;
      } else {
        var c, next := SlotSize(samples), OneSlot(cap, p, samples, timestamp);
        DropNewestKeepsOldest(cap, next, samples[c..], timestamp);
        assert next.queue + Pieces(samples[c..], timestamp) == all;
      }
      hide Pieces;
    }
  }

  // ---------------------------------------------------------------- a change of rate

  lemma {:induction false} AlwaysSized(u: Setup, events: seq<Event>)
    requires u.Valid() && WellFormed(events)
    ensures Sized(AudioRuns.After(u, events))
    decreases |events|
  {
    if events != [] {
      var front, last := events[..|events| - 1], events[|events| - 1];
      AlwaysSized(u, front);
      var w := AudioRuns.After(u, front);
      if last.DrainAll? {
        DrainKeepsStream(w);
      } else {
        CaptureSized(u, w, last.c);
      }
      hide Sized;
    }
  }

  lemma CaptureSized(u: Setup, w: World, c: Capture)
    requires u.Valid() && c.Valid() && Sized(w) && ValidState(w.pipe)
    ensures Sized(World(Captured(u.cap, u.policy, u.engineRate, u.weights, w.pipe, c), w.delivered))
  {
    if c.data != Nothing {
      if NeedsResampling(c.sampleRate, u.engineRate) {
        var rates := Rates(c.sampleRate, u.engineRate);
        var res := Processed(rates, u.weights(rates), ConverterFor(w.pipe, c.sampleRate), Mono(c), OUT_CAP);
        SlottedKeeps(u.cap, u.policy, w.pipe.pending, res.1, c.timestamp);
      } else {
        SlottedKeeps(u.cap, u.policy, w.pipe.pending, Mono(c), c.timestamp);
      }
    }
    hide Slotted, Processed, Mono, SlotSized;
  }

  /** Events at one rate, after any others that left no converter of that rate behind. */
  ghost predicate Segment(u: Setup, rate: nat, before: seq<Event>, during: seq<Event>)
    requires u.Valid()
  {
    && WellFormed(before) && WellFormed(during) && WellFormed(before + during) && OneRate(during, rate) && NeedsResampling(rate, u.engineRate)
    && var c := AudioRuns.After(u, before).pipe.converter; c.None? || c.value.0 != rate
  }

  lemma SegmentFront(u: Setup, rate: nat, before: seq<Event>, during: seq<Event>)
    requires u.Valid() && Segment(u, rate, before, during) && during != []
    ensures Segment(u, rate, before, during[..|during| - 1])
    ensures during[|during| - 1].Arrives? ==> during[|during| - 1].c.Valid() && during[|during| - 1].c.sampleRate == rate
  {
    var front := during[..|during| - 1];
    forall i | 0 <= i < |before + front| && (before + front)[i].Arrives?
      ensures (before + front)[i].c.Valid()
    {
      assert (before + front)[i] == (before + during)[i];
    }
  }

  /** A block at a rate that needs converting, taken apart. */
  lemma CapturedIs(u: Setup, rate: nat, calls: seq<Call>, s: Pipe, c: Capture) returns (r: Resampling.State, out: seq<real>)
    requires u.Valid() && c.Valid() && c.data != Nothing && c.sampleRate == rate && NeedsResampling(rate, u.engineRate)
    requires ValidState(s) && ConverterInStep(u, rate, calls, s)
    ensures var rates, more := Rates(rate, u.engineRate), calls + [Call(Mono(c), OUT_CAP)];
            && Captured(u.cap, u.policy, u.engineRate, u.weights, s, c) ==
                 Pipe(Some((rate, r)), Slotted(u.cap, u.policy, s.pending, out, c.timestamp))
            && r == Resampling.After(rates, u.weights(rates), more)
            && Emitted(rates, u.weights(rates), more) == Emitted(rates, u.weights(rates), calls) + out
  {
    var rates, call := Rates(rate, u.engineRate), Call(Mono(c), OUT_CAP);
    var more := calls + [call];
    assert more[..|calls|] == calls && more[|calls|] == call;
    UnfoldRun(rates, u.weights(rates), calls, call, more);
    hide Slotted, Processed, Mono, Emitted, Fed, Resampling.After;
    var res := Processed(rates, u.weights(rates), ConverterFor(s, rate), Mono(c), OUT_CAP);
    r, out := res.0, res.1;
  }

  lemma InStepIs(u: Setup, rate: nat, calls: seq<Call>, s: Pipe)
    requires u.Valid() && NeedsResampling(rate, u.engineRate) && ValidState(s) && s.converter.Some? && s.converter.value.0 == rate
    requires s.converter.value.1 == Resampling.After(Rates(rate, u.engineRate), u.weights(Rates(rate, u.engineRate)), calls)
    ensures ConverterInStep(u, rate, calls, s)
  {
  }

  lemma Associates3(a: seq<real>, b: seq<real>, c: seq<real>, x: seq<real>)
    requires x == a + b
    ensures x + c == a + (b + c)
  {
  }

  /** One block of a segment. */
  lemma SegmentBlock(u: Setup, rate: nat, calls: seq<Call>, w: World, c: Capture, was: seq<real>)
    requires u.Valid() && c.Valid() && c.data != Nothing && c.sampleRate == rate && NeedsResampling(rate, u.engineRate)
    requires Sized(w) && ValidState(w.pipe) && ConverterInStep(u, rate, calls, w.pipe)
    ensures var rates := Rates(rate, u.engineRate);
            var n := World(Captured(u.cap, u.policy, u.engineRate, u.weights, w.pipe, c), w.delivered);
            var more := calls + [Call(Mono(c), OUT_CAP)];
            && ConverterInStep(u, rate, more, n.pipe) && n.pipe.pending.drops >= w.pipe.pending.drops
            && (n.pipe.pending.drops == w.pipe.pending.drops && Stream(w) == was + Emitted(rates, u.weights(rates), calls) ==>
                  Stream(n) == was + Emitted(rates, u.weights(rates), more))
  {
    var rates := Rates(rate, u.engineRate);
    assert rates.Valid();
    hide *;
    var r, out := CapturedIs(u, rate, calls, w.pipe, c);
    CapturedValid(u, w.pipe, c);
    InStepIs(u, rate, calls + [Call(Mono(c), OUT_CAP)], Captured(u.cap, u.policy, u.engineRate, u.weights, w.pipe, c));
    BlockJoins(u, w, out, c.timestamp, Some((rate, r)));
    if Stream(w) == was + Emitted(rates, u.weights(rates), calls) {
      Associates3(was, Emitted(rates, u.weights(rates), calls), out, Stream(w));
    }
  }

  /** n has the stream of w followed by the conversion of these blocks, unless something was dropped since. */
  ghost predicate Continues(u: Setup, rate: nat, w: World, calls: seq<Call>, n: World)
    requires u.Valid()
  {
    var rates := Rates(rate, u.engineRate);
    && rates.Valid() && n.pipe.pending.drops >= w.pipe.pending.drops
    && ConverterInStep(u, rate, calls, n.pipe)
    && (n.pipe.pending.drops == w.pipe.pending.drops ==> Stream(n) == Stream(w) + Emitted(rates, u.weights(rates), calls))
  }

  /** What one event does to the world. */
  ghost function AfterOne(u: Setup, w: World, e: Event): World
    requires u.Valid() && ValidState(w.pipe) && (e.Arrives? ==> e.c.Valid())
  {
    match e
    case Arrives(c) => World(Captured(u.cap, u.policy, u.engineRate, u.weights, w.pipe, c), w.delivered)
    case DrainAll => World(w.pipe.(pending := Pending([], w.pipe.pending.drops)), w.delivered + w.pipe.pending.queue)
  }

  /** The blocks one event adds. */
  ghost function CallOf(e: Event): seq<Call>
    requires e.Arrives? ==> e.c.Valid()
  {
    if e.Arrives? && e.c.data != Nothing then [Call(Mono(e.c), OUT_CAP)] else []
  }

  lemma LastEvent(u: Setup, before: seq<Event>, front: seq<Event>, last: Event)
    requires u.Valid() && WellFormed(before + front) && WellFormed(before + (front + [last])) && WellFormed(front) && WellFormed(front + [last])
    ensures last.Arrives? ==> last.c.Valid()
    ensures AudioRuns.After(u, before + (front + [last])) == AfterOne(u, AudioRuns.After(u, before + front), last)
    ensures Calls(front + [last]) == Calls(front) + CallOf(last)
  {
    var all := before + (front + [last]);
    assert all[|all| - 1] == last && all[..|all| - 1] == before + front;
    assert (front + [last])[..|front|] == front;
    hide Captured, Mono;
  }

  lemma ContinuesStep(u: Setup, rate: nat, w0: World, calls: seq<Call>, w: World, e: Event)
    requires u.Valid() && ValidState(w.pipe) && NeedsResampling(rate, u.engineRate) && Sized(w) && Continues(u, rate, w0, calls, w)
    requires e.Arrives? ==> e.c.Valid() && e.c.sampleRate == rate
    ensures Continues(u, rate, w0, calls + CallOf(e), AfterOne(u, w, e))
  {
    if e.DrainAll? {
      DrainKeepsStream(w);
      assert calls + [] == calls;
    } else if e.c.data == Nothing {
      assert calls + [] == calls;
    } else {
      SegmentBlock(u, rate, calls, w, e.c, Stream(w0));
    }
    hide Stream, Sized, Emitted, Captured, Mono;
  }

  /** After a change of rate, the stream goes on with the conversion of the new blocks from a fresh start. */
  lemma {:induction false} RateChangeRestarts(u: Setup, rate: nat, before: seq<Event>, during: seq<Event>)
    requires u.Valid() && Segment(u, rate, before, during)
    ensures Continues(u, rate, AudioRuns.After(u, before), Calls(during), AudioRuns.After(u, before + during))
    decreases |during|
  {
    if during == [] {
      assert before + during == before;
      assert Stream(AudioRuns.After(u, before)) + [] == Stream(AudioRuns.After(u, before));
    } else {
      var front, last := during[..|during| - 1], during[|during| - 1];
      assert during == front + [last];
      SegmentFront(u, rate, before, during);
      assert WellFormed(before + front) && WellFormed(front) && WellFormed(before + (front + [last])) && WellFormed(before);
      assert NeedsResampling(rate, u.engineRate);
      hide *;
      RateChangeRestarts(u, rate, before, front);
      AlwaysSized(u, before + front);
      LastEvent(u, before, front, last);
      ContinuesStep(u, rate, AudioRuns.After(u, before), Calls(front), AudioRuns.After(u, before + front), last);
    }
  }
}
