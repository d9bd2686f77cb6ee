/**
 The capture path over whole runs at one microphone rate: whatever the block sizes and whenever the
 sink drains, nothing is lost, repeated or reordered unless the ring reports a drop.
*/
module AudioRuns {
  import opened Arithmetic
  import opened AudioPipelines
  import opened Resampling
  import opened RingBuffers
  import opened Wrappers

  // ---------------------------------------------------------------- the output buffer never truncates

  /** Blocks of at most 512 samples into the 2048-sample buffer. */
  ghost predicate Bounded(calls: seq<Call>) {
    forall i :: 0 <= i < |calls| ==> |calls[i].input| <= MAX_FRAME && calls[i].cap == OUT_CAP
  }

  /** d more inputs make at most ceil(d * out / in) <= 4 d more outputs, when 4 in >= out. */
  lemma AvailableGrows(rates: Rates, n: nat, d: nat)
    requires rates.Valid() && 4 * rates.inRate >= rates.outRate
    ensures Available(rates, n + d) <= Available(rates, n) + 4 * d
  {
    if n + d > HALF {
      AvailableCovers(rates, n);
      var k := Available(rates, n);
      hide Available;
      var m := if n <= HALF then 0 else n - HALF;
      Grows(k, rates.inRate, rates.outRate, m, d, n + d - HALF);
      AvailableAtMost(rates, n + d, k + 4 * d);
    }
  }

  lemma AvailableAtMost(rates: Rates, n: nat, k: nat)
    requires rates.Valid() && n > HALF && k * rates.inRate >= (n - HALF) * rates.outRate
    ensures Available(rates, n) <= k
  {
    CeilingAtMost((n - HALF) * rates.outRate, rates.inRate, k);
  }

  lemma Grows(k: nat, i: nat, o: nat, m: nat, d: nat, x: nat)
    requires k * i >= m * o && 4 * i >= o && x <= m + d
    ensures (k + 4 * d) * i >= x * o
  {
    assert (k + 4 * d) * i == k * i + d * (4 * i);
    assert (m + d) * o == m * o + d * o;
    Scale(o, 4 * i, d);
    Scale(x, m + d, o);
  }

  /** Available(n) outputs reach position n - 8. */
  lemma AvailableCovers(rates: Rates, n: nat)
    requires rates.Valid()
    ensures Available(rates, n) * rates.inRate >= (if n <= HALF then 0 else n - HALF) * rates.outRate
  {
    if n > HALF {
      CeilingCovers((n - HALF) * rates.outRate, rates.inRate);
    }
  }

  lemma CeilingCovers(a: nat, b: nat)
    requires b > 0
    ensures (a + b - 1) / b * b >= a
  {
    var q, r := (a + b - 1) / b, (a + b - 1) % b;
    assert q * b + r == a + b - 1;
  }

  lemma CeilingAtMost(a: nat, b: nat, k: nat)
    requires b > 0 && k * b >= a
    ensures (a + b - 1) / b <= k
  {
    var q := (a + b - 1) / b;
    assert q * b <= a + b - 1;
    assert (k + 1) * b == k * b + b;
    if q > k { Scale(k + 1, q, b); }
  }

  lemma CeilingAtLeast(a: nat, b: nat, k: nat)
    requires b > 0 && k > 0 && (k - 1) * b < a
    ensures k <= (a + b - 1) / b
  {
    var q := (a + b - 1) / b;
    CeilingCovers(a, b);
    if q < k { Scale(q, k - 1, b); }
  }

  lemma ReadyIsAvailable(rates: Rates, k: nat, n: nat)
    requires rates.Valid() && k > 0 && (k - 1) * rates.inRate < (n - HALF) * rates.outRate
    ensures k <= Available(rates, n)
  {
    if n <= HALF {
      NotPositive(n - HALF, rates.outRate);
      NotPositive(1 - k, rates.inRate);
    } else {
      CeilingAtLeast((n - HALF) * rates.outRate, rates.inRate, k);
    }
  }

  /** No more outputs are emitted than are available. */
  lemma EmittedAtMost(rates: Rates, w: real -> real, calls: seq<Call>)
    requires rates.Valid()
    ensures |Emitted(rates, w, calls)| <= Available(rates, |Fed(calls)|)
  {
    hide Emitted, Fed, Position, Available;
    var k, n := |Emitted(rates, w, calls)|, |Fed(calls)|;
    if k > 0 {
      LastOutputReady(rates, w, calls);
      InRangeIff(rates, k - 1, n);
      ReadyIsAvailable(rates, k, n);
    }
  }

  /** After every block all available outputs are out: the 2048-sample buffer never cuts a block short. */
  lemma {:induction false} NeverTruncates(rates: Rates, w: real -> real, calls: seq<Call>)
    requires rates.Valid() && 4 * rates.inRate >= rates.outRate && Bounded(calls)
    ensures |Emitted(rates, w, calls)| == Available(rates, |Fed(calls)|)
    decreases |calls|
  {
    if calls != [] {
      var front, last := calls[..|calls| - 1], calls[|calls| - 1];
      assert last.cap == OUT_CAP && |last.input| <= MAX_FRAME && Bounded(front);
      hide *;
      NeverTruncates(rates, w, front);
      OneMoreCall(rates, w, front, last, calls);
    }
  }

  lemma OneMoreCall(rates: Rates, w: real -> real, front: seq<Call>, last: Call, calls: seq<Call>)
    requires rates.Valid() && 4 * rates.inRate >= rates.outRate
    requires calls != [] && front == calls[..|calls| - 1] && last == calls[|calls| - 1]
    requires last.cap == OUT_CAP && |last.input| <= MAX_FRAME
    ensures |Emitted(rates, w, front)| == Available(rates, |Fed(front)|) ==>
              |Emitted(rates, w, calls)| == Available(rates, |Fed(calls)|)
  {
    hide *;
    if RoomLeft(rates, w, calls) {
      OutputCount(rates, w, calls);
    } else {
      NoRoom(rates, w, front, last, calls);
      EmittedAtMost(rates, w, calls);
      AvailableGrows(rates, |Fed(front)|, |last.input|);
    }
  }

  lemma NoRoom(rates: Rates, w: real -> real, front: seq<Call>, last: Call, calls: seq<Call>)
    requires rates.Valid() && calls != [] && front == calls[..|calls| - 1] && last == calls[|calls| - 1]
    requires |last.input| <= MAX_FRAME && last.cap == OUT_CAP
    ensures !RoomLeft(rates, w, calls) ==> |Emitted(rates, w, calls)| >= |Emitted(rates, w, front)| + 4 * |last.input|
    ensures |Fed(calls)| == |Fed(front)| + |last.input|
  {
    hide Emitted;
  }

  // ---------------------------------------------------------------- slots

  function Samples(frames: seq<PcmFrame>): seq<real> {
    if frames == [] then [] else Samples(frames[..|frames| - 1]) + frames[|frames| - 1].samples
  }

  lemma {:induction false} SamplesAppend(a: seq<PcmFrame>, b: seq<PcmFrame>)
    ensures Samples(a + b) == Samples(a) + Samples(b)
    decreases |b|
  {
    if b == [] {
      assert a + b == a;
    } else {
      var front := b[..|b| - 1];
      SamplesAppend(a, front);
      assert (a + b)[..|a + b| - 1] == a + front;
      Associates(Samples(a), Samples(front), b[|b| - 1].samples);
    }
  }

  /** Slots hold 1 to 512 samples. */
  ghost predicate SlotSized(frames: seq<PcmFrame>) {
    forall i :: 0 <= i < |frames| ==> 1 <= |frames[i].samples| <= MAX_FRAME
  }

  lemma {:induction false} SlottedDrops(cap: nat, policy: Policy, p: Pending, samples: seq<real>, timestamp: nat)
    ensures Slotted(cap, policy, p, samples, timestamp).drops >= p.drops
    decreases |samples|
  {
    if samples != [] && !(|p.queue| == cap && policy == DropNewest) {
      SlottedDrops(cap, policy, OneSlot(cap, p, samples, timestamp), samples[SlotSize(samples)..], timestamp);
    }
  }

  lemma Associates(a: seq<real>, b: seq<real>, c: seq<real>)
    ensures (a + b) + c == a + (b + c)
  {
  }

  /** A new slot within the size limit; without a drop, its samples join the queue's. */
  lemma OneSlotKeeps(cap: nat, p: Pending, samples: seq<real>, timestamp: nat)
    requires SlotSized(p.queue) && samples != []
    ensures var n := OneSlot(cap, p, samples, timestamp);
            SlotSized(n.queue) && (n.drops == p.drops ==> Samples(n.queue) == Samples(p.queue) + samples[..SlotSize(samples)])
  {
    hide SlotSize;
    var slot := PcmFrame(samples[..SlotSize(samples)], timestamp);
    if |p.queue| != cap {
      assert (p.queue + [slot])[..|p.queue|] == p.queue;
    }
  }

  /** Slots stay within 512 samples; without a drop exactly the block's samples join the queue. */
  lemma {:induction false} SlottedKeeps(cap: nat, policy: Policy, p: Pending, samples: seq<real>, timestamp: nat)
    requires SlotSized(p.queue)
    ensures var n := Slotted(cap, policy, p, samples, timestamp);
            SlotSized(n.queue) && (n.drops == p.drops ==> Samples(n.queue) == Samples(p.queue) + samples)
    decreases |samples|
  {
    if samples == [] {
      assert Samples(p.queue) + samples == Samples(p.queue);
    } else if !(|p.queue| == cap && policy == DropNewest) {
      var c, next := SlotSize(samples), OneSlot(cap, p, samples, timestamp);
      assert samples == samples[..c] + samples[c..];
      OneSlotKeeps(cap, p, samples, timestamp);
      assert next.drops >= p.drops;
      hide OneSlot, Samples, SlotSized, SlotSize;
      SlottedKeeps(cap, policy, next, samples[c..], timestamp);
      SlottedDrops(cap, policy, next, samples[c..], timestamp);
      Associates(Samples(p.queue), samples[..c], samples[c..]);
    }
  }

  // ---------------------------------------------------------------- runs

  datatype Event = Arrives(c: Capture) | DrainAll

  datatype Setup = Setup(cap: nat, policy: Policy, engineRate: nat, weights: Weights) {
    predicate Valid() { engineRate > 0 }
  }

  /** The pipeline and everything the sink has received. */
  datatype World = World(pipe: Pipe, delivered: seq<PcmFrame>)

  const START_PIPE := Pipe(None, Pending([], 0))

  ghost predicate WellFormed(events: seq<Event>) {
    forall i :: 0 <= i < |events| && events[i].Arrives? ==> events[i].c.Valid()
  }

  lemma CapturedValid(u: Setup, s: Pipe, c: Capture)
    requires u.Valid() && ValidState(s) && c.Valid()
    ensures ValidState(Captured(u.cap, u.policy, u.engineRate, u.weights, s, c))
  {
    hide Slotted, Mono;
    if c.data != Nothing && NeedsResampling(c.sampleRate, u.engineRate) {
      var rates := Rates(c.sampleRate, u.engineRate);
      KeepsPhase(rates, u.weights(rates), ConverterFor(s, c.sampleRate), Call(Mono(c), OUT_CAP));
    }
    hide Processed;
  }

  ghost function After(u: Setup, events: seq<Event>): (r: World)
    requires u.Valid() && WellFormed(events)
    ensures ValidState(r.pipe)
    decreases |events|
  {
    if events == [] then World(START_PIPE, [])
    else
      var before := After(u, events[..|events| - 1]);
      match events[|events| - 1]
      case Arrives(c) =>
        CapturedValid(u, before.pipe, c);
        World(Captured(u.cap, u.policy, u.engineRate, u.weights, before.pipe, c), before.delivered)
      case DrainAll =>
        World(before.pipe.(pending := Pending([], before.pipe.pending.drops)), before.delivered + before.pipe.pending.queue)
  }

  /** The blocks that carry samples, as calls of the converter. */
  ghost function Calls(events: seq<Event>): seq<Call>
    requires WellFormed(events)
    decreases |events|
  {
    if events == [] then []
    else
      match events[|events| - 1]
      case DrainAll => Calls(events[..|events| - 1])
      case Arrives(c) =>
        if c.data == Nothing then Calls(events[..|events| - 1])
        else Calls(events[..|events| - 1]) + [Call(Mono(c), OUT_CAP)]
  }

  ghost predicate OneRate(events: seq<Event>, rate: nat) {
    forall i :: 0 <= i < |events| && events[i].Arrives? ==> events[i].c.sampleRate == rate
  }

  /** What has been delivered, followed by what is pending. */
  ghost function Stream(w: World): seq<real> {
    Samples(w.delivered + w.pipe.pending.queue)
  }

  ghost predicate Sized(w: World) {
    SlotSized(w.delivered) && SlotSized(w.pipe.pending.queue)
  }

  /** What the stream should be: the converted blocks, or the blocks themselves at the engine's rate. */
  ghost function Expected(u: Setup, rate: nat, calls: seq<Call>): seq<real>
    requires u.Valid()
  {
    if NeedsResampling(rate, u.engineRate)
    then var rates := Rates(rate, u.engineRate); Emitted(rates, u.weights(rates), calls)
    else Fed(calls)
  }

  ghost predicate ConverterInStep(u: Setup, rate: nat, calls: seq<Call>, s: Pipe)
    requires u.Valid()
  {
    if NeedsResampling(rate, u.engineRate)
    then var rates := Rates(rate, u.engineRate);
         ValidState(s) && ConverterFor(s, rate) == Resampling.After(rates, u.weights(rates), calls)
    else true
  }

  lemma DrainKeepsStream(w: World)
    requires Sized(w)
    ensures var n := World(w.pipe.(pending := Pending([], w.pipe.pending.drops)), w.delivered + w.pipe.pending.queue);
            Sized(n) && Stream(n) == Stream(w)
  {
    assert (w.delivered + w.pipe.pending.queue) + [] == w.delivered + w.pipe.pending.queue;
  }

  /** One block of samples joins the stream. */
  lemma BlockJoins(u: Setup, w: World, samples: seq<real>, timestamp: nat, converter: Option<(nat, Resampling.State)>)
    requires Sized(w)
    ensures var p := Slotted(u.cap, u.policy, w.pipe.pending, samples, timestamp);
            var n := World(Pipe(converter, p), w.delivered);
            Sized(n) && p.drops >= w.pipe.pending.drops
            && (p.drops == w.pipe.pending.drops ==> Stream(n) == Stream(w) + samples)
  {
    var p := Slotted(u.cap, u.policy, w.pipe.pending, samples, timestamp);
    SlottedKeeps(u.cap, u.policy, w.pipe.pending, samples, timestamp);
    SlottedDrops(u.cap, u.policy, w.pipe.pending, samples, timestamp);
    SamplesAppend(w.delivered, p.queue);
    SamplesAppend(w.delivered, w.pipe.pending.queue);
    hide Slotted, Samples, SlotSized;
    Associates(Samples(w.delivered), Samples(w.pipe.pending.queue), samples);
  }

  /** A capture hands exactly the next stretch of the expected stream to the ring. */
  lemma CaptureJoins(u: Setup, rate: nat, calls: seq<Call>, w: World, c: Capture)
    requires u.Valid() && c.Valid() && c.data != Nothing && c.sampleRate == rate
    requires Sized(w) && ValidState(w.pipe) && ConverterInStep(u, rate, calls, w.pipe)
    requires w.pipe.pending.drops == 0 ==> Stream(w) == Expected(u, rate, calls)
    ensures var n := World(Captured(u.cap, u.policy, u.engineRate, u.weights, w.pipe, c), w.delivered);
            var more := calls + [Call(Mono(c), OUT_CAP)];
            && Sized(n) && ValidState(n.pipe) && ConverterInStep(u, rate, more, n.pipe)
            && (n.pipe.pending.drops == 0 ==> Stream(n) == Expected(u, rate, more))
  {
    var call := Call(Mono(c), OUT_CAP);
    var more := calls + [call];
    assert more[..|calls|] == calls && more[|calls|] == call;
    CapturedValid(u, w.pipe, c);
    if NeedsResampling(rate, u.engineRate) {
      var rates := Rates(rate, u.engineRate);
      var res := Processed(rates, u.weights(rates), ConverterFor(w.pipe, rate), Mono(c), OUT_CAP);
      BlockJoins(u, w, res.1, c.timestamp, Some((rate, res.0)));
      UnfoldRun(rates, u.weights(rates), calls, call, more);
    } else {
      BlockJoins(u, w, Mono(c), c.timestamp, w.pipe.converter);
      assert Fed(more) == Fed(calls) + Mono(c);
    }
    hide Slotted, Processed, Mono, Stream, Sized, Emitted, Fed, Resampling.After;
  }

  lemma {:induction false} RunInStep(u: Setup, rate: nat, events: seq<Event>)
    requires u.Valid() && WellFormed(events) && OneRate(events, rate)
    ensures var w := After(u, events);
            && Sized(w) && ConverterInStep(u, rate, Calls(events), w.pipe)
            && (w.pipe.pending.drops == 0 ==> Stream(w) == Expected(u, rate, Calls(events)))
    decreases |events|
  {
    if events != [] {
      var front, last := events[..|events| - 1], events[|events| - 1];
      assert OneRate(front, rate) && WellFormed(front);
      RunInStep(u, rate, front);
      var w := After(u, front);
      if last.DrainAll? {
        DrainKeepsStream(w);
      } else if last.c.data != Nothing {
        assert last.c.sampleRate == rate && last.c.Valid();
        CaptureJoins(u, rate, Calls(front), w, last.c);
      }
      hide Stream, Sized, Expected, ConverterInStep;
    }
  }

  lemma {:induction false} CallsBounded(events: seq<Event>)
    requires WellFormed(events)
    ensures Bounded(Calls(events))
    decreases |events|
  {
    if events != [] { CallsBounded(events[..|events| - 1]); }
  }

  /** At any rate that needs converting, without drops, the stream is a stretch of the ideal one from its start. */
  lemma CaptureToSinkAnyRate(u: Setup, rate: nat, events: seq<Event>)
    requires u.Valid() && WellFormed(events) && OneRate(events, rate) && NeedsResampling(rate, u.engineRate)
    requires After(u, events).pipe.pending.drops == 0
    ensures var rates, x := Rates(rate, u.engineRate), Fed(Calls(events));
            && |Stream(After(u, events))| <= Available(rates, |x|)
            && IsIdeal(rates, u.weights(rates), Padded(x), 0, Stream(After(u, events)))
  {
    var rates := Rates(rate, u.engineRate);
    RunInStep(u, rate, events);
    EmittedAtMost(rates, u.weights(rates), Calls(events));
    OutputsAreIdeal(rates, u.weights(rates), Calls(events));
    hide After, Calls, Stream, Emitted, Fed, IsIdeal, Sized, Padded;
  }

  /**
   Capture to sink, at a rate that needs converting and is at least a quarter of the engine's: without
   drops, what the sink has received and what is still pending together are exactly the ideal outputs
   available for the samples captured so far, in slots of at most 512.
  */
  lemma CaptureToSink(u: Setup, rate: nat, events: seq<Event>)
    requires u.Valid() && WellFormed(events) && OneRate(events, rate)
    requires NeedsResampling(rate, u.engineRate) && 4 * rate >= u.engineRate
    requires After(u, events).pipe.pending.drops == 0
    ensures var rates, x := Rates(rate, u.engineRate), Fed(Calls(events));
            && |Stream(After(u, events))| == Available(rates, |x|)
            && IsIdeal(rates, u.weights(rates), Padded(x), 0, Stream(After(u, events)))
            && Sized(After(u, events))
  {
    var rates := Rates(rate, u.engineRate);
    RunInStep(u, rate, events);
    CallsBounded(events);
    NeverTruncates(rates, u.weights(rates), Calls(events));
    OutputsAreIdeal(rates, u.weights(rates), Calls(events));
    hide After, Calls, Stream, Emitted, Fed, IsIdeal, Sized, Padded;
  }

  /** At the engine's own rate, or an unknown one, the samples pass through unchanged. */
  lemma CaptureToSinkUnconverted(u: Setup, rate: nat, events: seq<Event>)
    requires u.Valid() && WellFormed(events) && OneRate(events, rate) && !NeedsResampling(rate, u.engineRate)
    requires After(u, events).pipe.pending.drops == 0
    ensures Stream(After(u, events)) == Fed(Calls(events)) && Sized(After(u, events))
  {
    RunInStep(u, rate, events);
  }

  /** Block sizes, drain times, ring size and policy are invisible in the stream. */
  lemma BlockingIsInvisible(u: Setup, v: Setup, rate: nat, a: seq<Event>, b: seq<Event>)
    requires u.Valid() && v.Valid() && u.engineRate == v.engineRate && u.weights == v.weights
    requires WellFormed(a) && WellFormed(b) && OneRate(a, rate) && OneRate(b, rate) && 4 * rate >= u.engineRate
    requires Fed(Calls(a)) == Fed(Calls(b))
    requires After(u, a).pipe.pending.drops == 0 && After(v, b).pipe.pending.drops == 0
    ensures Stream(After(u, a)) == Stream(After(v, b))
  {
    RunInStep(u, rate, a);
    RunInStep(v, rate, b);
    if NeedsResampling(rate, u.engineRate) {
      var rates := Rates(rate, u.engineRate);
      CallsBounded(a);
      CallsBounded(b);
      NeverTruncates(rates, u.weights(rates), Calls(a));
      NeverTruncates(rates, u.weights(rates), Calls(b));
      ChunkingIsInvisible(rates, u.weights(rates), Calls(a), Calls(b));
    }
    hide After, Calls, Stream, Emitted, Fed, Sized;
  }
}
