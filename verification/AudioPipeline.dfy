/**
 The capture path of core/audio/AudioPipeline.cpp: downmix to mono, resample if the microphone is not
 at the engine's rate, cut into slots of at most 512 samples, and hand them to the sink through the
 ring. `weights` gives the converter's tap weights for a pair of rates.
*/
module AudioPipelines {
  import opened Resampling
  import opened RingBuffers
  import opened Wrappers

  const MAX_FRAME := 512
  const OUT_CAP := 2048

  datatype PcmFrame = PcmFrame(samples: seq<real>, timestamp: nat)

  datatype Data = Floats(f32: seq<real>) | Shorts(i16: seq<int>) | Nothing

  /** Interleaved capture; channels == 0 is read as mono. */
  datatype Capture = Capture(frames: nat, channels: nat, sampleRate: nat, data: Data, timestamp: nat) {
    function Stride(): nat {
      if channels != 0 then channels else 1
    }

    function Count(): (n: nat)
      ensures n <= MAX_FRAME && n <= frames
    {
      if frames < MAX_FRAME then frames else MAX_FRAME
    }

    /** The caller's buffer is as long as it says. */
    predicate Valid() {
      match data
      case Floats(f) => frames * Stride() <= |f|
      case Shorts(s) => frames * Stride() <= |s|
      case Nothing => true
    }
  }

  lemma FirstChannelInside(i: nat, n: nat, stride: nat)
    requires i < n && stride >= 1
    ensures i * stride < n * stride
  {
    assert (n - i) * stride >= stride by {
      assert (n - i - 1) * stride >= 0;
      assert (n - i) * stride == (n - i - 1) * stride + stride;
    }
    assert (n - i) * stride == n * stride - i * stride;
  }

  /** Sample i of the first channel. */
  function MonoAt(c: Capture, i: nat): real
    requires c.Valid() && i < c.frames && c.data != Nothing
  {
    FirstChannelInside(i, c.frames, c.Stride());
    match c.data
    case Floats(f) => f[i * c.Stride()]
    case Shorts(s) => s[i * c.Stride()] as real / 32768.0
  }

  function Mono(c: Capture): (m: seq<real>)
    requires c.Valid() && c.data != Nothing
    ensures |m| == c.Count()
  {
    seq(c.Count(), i requires 0 <= i < c.Count() => MonoAt(c, i))
  }

  // ---------------------------------------------------------------- the ring as a queue

  /** The pending slots and how many frames were dropped. */
  datatype Pending = Pending(queue: seq<PcmFrame>, drops: nat)

  /** How many of these samples go into the next slot. */
  function SlotSize(samples: seq<real>): (c: nat)
    ensures c <= |samples| && c <= MAX_FRAME && (samples != [] ==> c >= 1)
  {
    if |samples| < MAX_FRAME then |samples| else MAX_FRAME
  }

  /** The queue after its oldest slot has made room, if it was full. */
  function Room(cap: nat, queue: seq<PcmFrame>): seq<PcmFrame> {
    if |queue| == cap && queue != [] then queue[1..] else queue
  }

  /** One more slot. */
  function OneSlot(cap: nat, p: Pending, samples: seq<real>, timestamp: nat): Pending {
    Pending(Room(cap, p.queue) + [PcmFrame(samples[..SlotSize(samples)], timestamp)], p.drops + if |p.queue| == cap then 1 else 0)
  }

  /** Step 3: slots of at most 512 samples; a full ring drops its oldest slot, or the rest of the block. */
  function Slotted(cap: nat, policy: Policy, p: Pending, samples: seq<real>, timestamp: nat): Pending
    decreases |samples|
  {
    if samples == [] then p
    else if |p.queue| == cap && policy == DropNewest then p.(drops := p.drops + 1)
    else Slotted(cap, policy, OneSlot(cap, p, samples, timestamp), samples[SlotSize(samples)..], timestamp)
  }

  lemma SlottedStep(cap: nat, policy: Policy, p: Pending, samples: seq<real>, off: nat, timestamp: nat)
    requires off < |samples|
    ensures Slotted(cap, policy, p, samples[off..], timestamp) ==
            if |p.queue| == cap && policy == DropNewest then p.(drops := p.drops + 1)
            else Slotted(cap, policy, OneSlot(cap, p, samples[off..], timestamp), samples[off + SlotSize(samples[off..])..], timestamp)
  {
    hide OneSlot;
    var c := SlotSize(samples[off..]);
    assert samples[off..][c..] == samples[off + c..];
  }

  lemma SlottedDone(cap: nat, policy: Policy, p: Pending, timestamp: nat)
    ensures Slotted(cap, policy, p, [], timestamp) == p
  {
  }

  lemma Handover<T>(out: seq<T>, queue: seq<T>)
    requires queue != []
    ensures (out + [queue[0]]) + queue[1..] == out + queue
  {
  }

  // ---------------------------------------------------------------- the whole state

  /** converter: the input rate of the current converter and its state, if there is one. */
  datatype Pipe = Pipe(converter: Option<(nat, Resampling.State)>, pending: Pending)

  predicate NeedsResampling(rate: nat, engineRate: nat) {
    rate != 0 && rate != engineRate
  }

  /** The converter's state on arrival of a block at this rate: a new one on a change of rate. */
  function ConverterFor(s: Pipe, rate: nat): Resampling.State {
    if s.converter.Some? && s.converter.value.0 == rate then s.converter.value.1 else START
  }

  predicate ValidState(s: Pipe) {
    s.converter.Some? ==> s.converter.value.0 > 0 && Late(s.converter.value.1.phase)
  }

  type Weights = Rates -> (real -> real)

  function Captured(cap: nat, policy: Policy, engineRate: nat, weights: Weights, s: Pipe, c: Capture): Pipe
    requires ValidState(s) && c.Valid() && engineRate > 0
  {
    if c.data == Nothing then s
    else if NeedsResampling(c.sampleRate, engineRate) then
      var rates := Rates(c.sampleRate, engineRate);
      var res := Processed(rates, weights(rates), ConverterFor(s, c.sampleRate), Mono(c), OUT_CAP);
      Pipe(Some((c.sampleRate, res.0)), Slotted(cap, policy, s.pending, res.1, c.timestamp))
    else s.(pending := Slotted(cap, policy, s.pending, Mono(c), c.timestamp))
  }

  // ---------------------------------------------------------------- the class

  class AudioPipeline {
    const engineRate: nat
    const weights: Weights
    const ring: RingBuffer<PcmFrame>
    const monoScratch: array<real>
    var resampler: Resampler?
    var resamplerInRate: nat

    ghost predicate Valid()
      reads this, ring, resampler
    {
      && engineRate > 0 && ring.Valid() && monoScratch.Length == MAX_FRAME
      && (resampler != null ==>
            && resamplerInRate > 0 && resampler.Valid()
            && resampler.rates == Rates(resamplerInRate, engineRate) && resampler.w == weights(resampler.rates)
            && !resampler.Passthrough())
    }

    ghost function Converter(): Option<(nat, Resampling.State)>
      reads this, resampler
    {
      if resampler == null then None else Some((resamplerInRate, resampler.Abs()))
    }

    ghost function Waiting(): Pending
      reads ring, ring.slots
      requires ring.Valid()
    {
      Pending(ring.Queue(), ring.dropCount)
    }

    ghost function Now(): Pipe
      reads this, resampler, ring, ring.slots
      requires ring.Valid()
    {
      Pipe(Converter(), Waiting())
    }

    constructor (slotCount: nat, policy: Policy, engineRate: nat, weights: Weights)
      requires 0 < slotCount < COUNTER_LIMIT && engineRate > 0
      ensures Valid() && fresh(ring) && fresh(ring.slots) && fresh(monoScratch) && ring.head == 0
      ensures Now() == Pipe(None, Pending([], 0))
      ensures this.engineRate == engineRate && this.weights == weights && ring.capacity == slotCount && ring.policy == policy
    {
      this.engineRate, this.weights := engineRate, weights;
      ring := new RingBuffer(slotCount, policy);
      monoScratch := new real[MAX_FRAME](_ => 0.0);
      resampler, resamplerInRate := null, 0;
    }

    method Downmix(c: Capture) returns (n: nat)
      requires c.Valid() && c.data != Nothing && monoScratch.Length == MAX_FRAME
      modifies monoScratch
      ensures n == c.Count() && monoScratch[..n] == Mono(c)
    {
      n := c.Count();
      var ch := c.Stride();
      for i := 0 to n
        invariant forall k :: 0 <= k < i ==> monoScratch[k] == MonoAt(c, k)
      {
        FirstChannelInside(i, c.frames, ch);
        monoScratch[i] := if c.data.Floats? then c.data.f32[i * ch] else c.data.i16[i * ch] as real / 32768.0;
      }
    }

    /** Step 2, with a new converter when the rate changes. */
    method Resample(mono: seq<real>, rate: nat) returns (out: seq<real>)
      requires Valid() && NeedsResampling(rate, engineRate)
      modifies this`resampler, this`resamplerInRate, resampler
      ensures Valid() && (resampler == old(resampler) || fresh(resampler))
      ensures var rates := Rates(rate, engineRate);
              var was := old(Converter());
              var from := if was.Some? && was.value.0 == rate then was.value.1 else START;
              Late(from.phase) &&
              var res := Processed(rates, weights(rates), from, mono, OUT_CAP);
              Converter() == Some((rate, res.0)) && out == res.1
    {
      if resampler == null || resamplerInRate != rate {
        var rates := Rates(rate, engineRate);
        resampler := new Resampler(rates, weights(rates));
        resamplerInRate := rate;
      }
      hide Processed;
      out := resampler.Process(mono, OUT_CAP);
    }

    /** Step 3. */
    method WriteSlots(samples: seq<real>, timestamp: nat)
      requires ring.Valid() && |samples| <= OUT_CAP && ring.head + 5 < COUNTER_LIMIT
      modifies ring, ring.slots
      ensures ring.Valid() && Waiting() == Slotted(ring.capacity, ring.policy, old(Waiting()), samples, timestamp)
      ensures ring.head <= old(ring.head) + 4
    {
      hide Slotted, OneSlot;
      var off := 0;
      ghost var slots := 0;
      ghost var goal := Slotted(ring.capacity, ring.policy, Waiting(), samples, timestamp);
      assert samples[0..] == samples;
      while off < |samples|
        invariant off <= |samples| && ring.Valid()
        invariant Slotted(ring.capacity, ring.policy, Waiting(), samples[off..], timestamp) == goal
        invariant slots <= 4 && ring.head == old(ring.head) + slots
        invariant off == MAX_FRAME * slots || off == |samples|
        decreases |samples| - off
      {
        SlottedStep(ring.capacity, ring.policy, Waiting(), samples, off, timestamp);
        var c := WriteSlot(samples, off, timestamp);
        if c == 0 {
          return;
        }
        off, slots := off + c, slots + 1;
      }
      SlottedDone(ring.capacity, ring.policy, Waiting(), timestamp);
    }

    /** One round of step 3: how many samples went into a slot, or 0 if there was none. */
    method WriteSlot(samples: seq<real>, off: nat, timestamp: nat) returns (c: nat)
      requires ring.Valid() && off < |samples| && ring.head + 1 < COUNTER_LIMIT
      modifies ring, ring.slots
      ensures ring.Valid()
      ensures if |old(ring.Queue())| == ring.capacity && ring.policy == DropNewest
              then c == 0 && Waiting() == old(Waiting()).(drops := old(ring.dropCount) + 1) && ring.head == old(ring.head)
              else c == SlotSize(samples[off..]) && Waiting() == OneSlot(ring.capacity, old(Waiting()), samples[off..], timestamp)
                   && ring.head == old(ring.head) + 1
    {
      var slot := ring.AcquireWrite();
      if slot == None {
        return 0;
      }
      c := if |samples| - off < MAX_FRAME then |samples| - off else MAX_FRAME;
      assert samples[off..][..c] == samples[off..off + c];
      ring.Fill(slot.value, PcmFrame(samples[off..off + c], timestamp));
      ring.CommitWrite();
    }

    method OnCaptureFrame(c: Capture)
      requires Valid() && c.Valid() && ring.head + 5 < COUNTER_LIMIT
      modifies this, ring, ring.slots, resampler, monoScratch
      ensures Valid() && ValidState(old(Now())) && Now() == Captured(ring.capacity, ring.policy, engineRate, weights, old(Now()), c)
      ensures ring.head <= old(ring.head) + 4
    {
      if c.data == Nothing {
        return;
      }
      hide Slotted, Processed, Mono;
      var n := Downmix(c);
      var samples := monoScratch[..n];
      if c.sampleRate != 0 && c.sampleRate != engineRate {
        samples := Resample(samples, c.sampleRate);
      }
      WriteSlots(samples, c.timestamp);
    }

    /** Everything pending goes to the sink, oldest first. */
    method Drain() returns (delivered: seq<PcmFrame>)
      requires Valid()
      modifies ring
      ensures Valid() && delivered == old(ring.Queue())
      ensures Now() == old(Now()).(pending := Pending([], old(ring.dropCount))) && ring.head == old(ring.head)
    {
      delivered := [];
      while true
        invariant Valid() && delivered + ring.Queue() == old(ring.Queue())
        invariant ring.head == old(ring.head) && ring.dropCount == old(ring.dropCount) && Converter() == old(Converter())
        decreases |ring.Queue()|
      {
        var slot := ring.AcquireRead();
        if slot == None {
          break;
        }
        ghost var queue := ring.Queue();
        Handover(delivered, queue);
        delivered := delivered + [ring.slots[slot.value]];
        ring.CommitRead();
      }
    }
  }
}
