/**
 The streaming windowed-sinc converter of core/audio/Resampler.h. Samples and phase are exact
 reals; `w(d)` stands for cutoff * sinc(d * cutoff) * lanczos(d), the weight of a tap at distance d.

 The specification is the whole-signal one: output k is the weighted mean of the 16 samples around
 position 16 + k * inRate / outRate of the input behind 16 zeros.
*/
module Resampling {

  const HALF := 8
  const TAPS := 16

  datatype Rates = Rates(inRate: nat, outRate: nat) {
    predicate Valid() { inRate > 0 && outRate > 0 }
  }

  function Ratio(rates: Rates): real
    requires rates.Valid()
  {
    rates.inRate as real / rates.outRate as real
  }

  /** Where output k is taken in the padded signal. */
  function Position(rates: Rates, k: nat): real
    requires rates.Valid()
  {
    TAPS as real + k as real * Ratio(rates)
  }

  /** ceil((n - 8) * outRate / inRate) for n > 8 inputs. */
  function Available(rates: Rates, n: nat): nat
    requires rates.Valid()
  {
    if n <= HALF then 0 else ((n - HALF) * rates.outRate + rates.inRate - 1) / rates.inRate
  }

  // ---------------------------------------------------------------- one output sample

  function Times(a: real, b: real): real {
    a * b
  }

  /** The weighted samples summed over taps lo .. hi - 1. */
  function Acc(w: real -> real, z: seq<real>, p: real, lo: int, hi: int): real
    requires 0 <= lo <= hi <= |z|
    decreases hi - lo
  {
    if lo == hi then 0.0 else Acc(w, z, p, lo, hi - 1) + Times(w(p - (hi - 1) as real), z[hi - 1])
  }

  /** The weights summed over taps lo .. hi - 1. */
  function WSum(w: real -> real, p: real, lo: int, hi: int): real
    requires lo <= hi
    decreases hi - lo
  {
    if lo == hi then 0.0 else WSum(w, p, lo, hi - 1) + w(p - (hi - 1) as real)
  }

  function Normalised(acc: real, wsum: real): real {
    if wsum > 0.000000001 then acc / wsum else acc
  }

  /** The kernel's left edge is inside, */
  predicate Late(p: real) {
    p.Floor >= HALF - 1
  }

  /** and its right edge needs more than n samples. */
  predicate Beyond(p: real, n: int) {
    p.Floor + HALF >= n
  }

  predicate InRange(z: seq<real>, p: real) {
    Late(p) && !Beyond(p, |z|)
  }

  function Interpolate(w: real -> real, z: seq<real>, p: real): real
    requires InRange(z, p)
  {
    var lo, hi := p.Floor - HALF + 1, p.Floor + HALF + 1;
    Normalised(Acc(w, z, p, lo, hi), WSum(w, p, lo, hi))
  }

  lemma {:induction false} AccShift(w: real -> real, z: seq<real>, p: real, base: nat, lo: int, hi: int)
    requires base <= |z| && 0 <= lo <= hi <= |z| - base
    ensures Acc(w, z[base..], p - base as real, lo, hi) == Acc(w, z, p, lo + base, hi + base)
    ensures WSum(w, p - base as real, lo, hi) == WSum(w, p, lo + base, hi + base)
    decreases hi - lo
  {
    hide Times;
    if lo < hi {
      AccShift(w, z, p, base, lo, hi - 1);
      assert p - base as real - (hi - 1) as real == p - (hi + base - 1) as real;
      assert z[base..][hi - 1] == z[hi + base - 1];
    }
  }

  /** Dropping `base` samples in front and rebasing the position changes nothing. */
  lemma InterpolateShift(w: real -> real, z: seq<real>, p: real, base: nat)
    requires base <= |z| && InRange(z[base..], p - base as real)
    ensures InRange(z, p) && Interpolate(w, z[base..], p - base as real) == Interpolate(w, z, p)
  {
    hide Normalised;
    var q := p - base as real;
    assert q.Floor == p.Floor - base;
    AccShift(w, z, p, base, q.Floor - HALF + 1, q.Floor + HALF + 1);
  }

  lemma {:induction false} AccExtend(w: real -> real, z: seq<real>, more: seq<real>, p: real, lo: int, hi: int)
    requires 0 <= lo <= hi <= |z|
    ensures Acc(w, z + more, p, lo, hi) == Acc(w, z, p, lo, hi)
    decreases hi - lo
  {
    hide Times;
    if lo < hi {
      AccExtend(w, z, more, p, lo, hi - 1);
      assert (z + more)[hi - 1] == z[hi - 1];
    }
  }

  /** Later input never changes an output that is already computable. */
  lemma InterpolateExtend(w: real -> real, z: seq<real>, more: seq<real>, p: real)
    requires InRange(z, p)
    ensures InRange(z + more, p) && Interpolate(w, z + more, p) == Interpolate(w, z, p)
  {
    hide Normalised;
    AccExtend(w, z, more, p, p.Floor - HALF + 1, p.Floor + HALF + 1);
  }

  // ---------------------------------------------------------------- one call

  datatype State = State(phase: real, carry: seq<real>)

  const ZEROS: seq<real> := [0.0, 0.0, 0.0, 0.0, 0.0, 0.0, 0.0, 0.0, 0.0, 0.0, 0.0, 0.0, 0.0, 0.0, 0.0, 0.0]

  const START := State(TAPS as real, ZEROS)

  /** The producing loop: outputs, and the phase it stops at. */
  function Produce(r: real, w: real -> real, work: seq<real>, phase: real, cap: nat): (res: (real, seq<real>))
    requires Late(phase) && r > 0.0
    ensures |res.1| <= cap && Late(res.0)
    decreases cap
  {
    if cap == 0 || Beyond(phase, |work|) then (phase, [])
    else
      var rest := Produce(r, w, work, phase + r, cap - 1);
      (rest.0, [Interpolate(w, work, phase)] + rest.1)
  }

  /** Where the next carry starts: the earliest sample a future output can need, clamped to the data. */
  function Base(phase: real, total: nat): (b: nat)
    ensures b <= total
  {
    var b := phase.Floor - HALF + 1;
    if b < 0 then 0 else if b > total then total else b
  }

  function Processed(rates: Rates, w: real -> real, s: State, input: seq<real>, cap: nat): (State, seq<real>)
    requires rates.Valid() && Late(s.phase)
  {
    var work := s.carry + input;
    var res := Produce(Ratio(rates), w, work, s.phase, cap);
    var base := Base(res.0, |work|);
    (State(res.0 - base as real, work[base..]), res.1)
  }

  // ---------------------------------------------------------------- against the ideal signal

  function Padded(fed: seq<real>): seq<real> {
    ZEROS + fed
  }

  /** y is output k of the ideal sequence for the padded signal z. */
  predicate Correct(rates: Rates, w: real -> real, z: seq<real>, k: nat, y: real)
    requires rates.Valid()
  {
    InRange(z, Position(rates, k)) && y == Interpolate(w, z, Position(rates, k))
  }

  /** out is outputs k, k+1, ... of the ideal sequence for the padded signal z. */
  ghost predicate IsIdeal(rates: Rates, w: real -> real, z: seq<real>, k: nat, out: seq<real>)
    requires rates.Valid()
  {
    forall j :: 0 <= j < |out| ==> Correct(rates, w, z, k + j, out[j])
  }

  /** After consuming `fed` and emitting k outputs: the carry is a suffix of the padded signal. */
  ghost predicate Synced(rates: Rates, s: State, fed: seq<real>, k: nat)
    requires rates.Valid()
  {
    var z := Padded(fed);
    && |s.carry| <= |z|
    && s.carry == z[|z| - |s.carry|..]
    && s.phase == Position(rates, k) - (|z| - |s.carry|) as real
    && Late(s.phase)
  }

  lemma StartSynced(rates: Rates)
    requires rates.Valid()
    ensures Synced(rates, START, [], 0)
  {
    assert Padded([])[0..] == ZEROS;
  }

  lemma RatioPositive(rates: Rates)
    requires rates.Valid()
    ensures Ratio(rates) > 0.0
  {
  }

  lemma NextPosition(rates: Rates, k: nat)
    requires rates.Valid()
    ensures Position(rates, k + 1) == Position(rates, k) + Ratio(rates)
  {
    assert (k + 1) as real * Ratio(rates) == k as real * Ratio(rates) + Ratio(rates);
  }

  /** The loop emits ideal outputs k, k+1, ... until the capacity or the input runs out. */
  lemma {:induction false} ProduceIsIdeal(rates: Rates, w: real -> real, z: seq<real>, base: nat, k: nat, cap: nat)
    requires rates.Valid() && base <= |z| && Ratio(rates) > 0.0
    requires Late(Position(rates, k) - base as real)
    ensures var res := Produce(Ratio(rates), w, z[base..], Position(rates, k) - base as real, cap);
            && res.0 == Position(rates, k + |res.1|) - base as real
            && IsIdeal(rates, w, z, k, res.1)
            && (|res.1| < cap ==> Beyond(res.0, |z| - base))
    decreases cap
  {
    hide Ratio, Interpolate;
    var phase := Position(rates, k) - base as real;
    if cap > 0 && !Beyond(phase, |z[base..]|) {
      NextPosition(rates, k);
      hide Position;
      assert phase + Ratio(rates) == Position(rates, k + 1) - base as real;
      ProduceIsIdeal(rates, w, z, base, k + 1, cap - 1);
      InterpolateShift(w, z, Position(rates, k), base);
      var rest := Produce(Ratio(rates), w, z[base..], phase + Ratio(rates), cap - 1);
      IdealCons(rates, w, z, k, Interpolate(w, z[base..], phase), rest.1);
    }
  }

  lemma IdealCons(rates: Rates, w: real -> real, z: seq<real>, k: nat, y: real, rest: seq<real>)
    requires rates.Valid() && Correct(rates, w, z, k, y) && IsIdeal(rates, w, z, k + 1, rest)
    ensures IsIdeal(rates, w, z, k, [y] + rest)
  {
    hide Correct;
    forall j | 0 <= j < |[y] + rest|
      ensures Correct(rates, w, z, k + j, ([y] + rest)[j])
    {
      if j > 0 { assert Correct(rates, w, z, (k + 1) + (j - 1), rest[j - 1]); }
    }
  }

  /** Ideal outputs so far, then ideal outputs of the longer signal. */
  lemma IdealAppend(rates: Rates, w: real -> real, z: seq<real>, input: seq<real>, out: seq<real>, more: seq<real>)
    requires rates.Valid() && IsIdeal(rates, w, z, 0, out) && IsIdeal(rates, w, z + input, |out|, more)
    ensures IsIdeal(rates, w, z + input, 0, out + more)
  {
    hide Position, Interpolate, InRange;
    forall j | 0 <= j < |out + more|
      ensures Correct(rates, w, z + input, 0 + j, (out + more)[j])
    {
      if j < |out| {
        assert Correct(rates, w, z, 0 + j, out[j]);
        InterpolateExtend(w, z, input, Position(rates, 0 + j));
      } else {
        assert Correct(rates, w, z + input, |out| + (j - |out|), more[j - |out|]);
      }
    }
  }

  /** Where the carry sits in the padded signal, and the work buffer with it. */
  lemma WorkIsSuffix(rates: Rates, s: State, fed: seq<real>, k: nat, input: seq<real>)
    requires rates.Valid() && Synced(rates, s, fed, k)
    ensures var base := |Padded(fed)| - |s.carry|;
            && 0 <= base <= |Padded(fed)| && s.carry + input == (Padded(fed) + input)[base..]
            && s.phase == Position(rates, k) - base as real && Late(s.phase)
  {
    hide Position, Padded;
  }

  /** One call keeps the carry in step with the signal and emits the next stretch of the ideal sequence. */
  lemma CallIsIdeal(rates: Rates, w: real -> real, s: State, fed: seq<real>, k: nat, input: seq<real>, cap: nat)
    requires rates.Valid() && Synced(rates, s, fed, k)
    ensures var res := Processed(rates, w, s, input, cap); var z := Padded(fed) + input;
            && Synced(rates, res.0, fed + input, k + |res.1|)
            && |res.1| <= cap
            && IsIdeal(rates, w, z, k, res.1)
            && (|res.1| < cap ==> |res.0.carry| <= TAPS - 1 && Beyond(Position(rates, k + |res.1|), |z|))
  {
    hide *;
    RatioPositive(rates);
    PaddedGrows(fed, input);
    WorkIsSuffix(rates, s, fed, k, input);
    var base := |Padded(fed)| - |s.carry|;
    ProcessedIs(rates, w, s, input, cap);
    ProduceIsIdeal(rates, w, Padded(fed + input), base, k, cap);
    var res := Produce(Ratio(rates), w, s.carry + input, s.phase, cap);
    Rebase(rates, fed + input, base, k + |res.1|, res.0);
  }

  /** The state a call leaves: the work buffer cut at Base, and the phase measured from there. */
  function Rest(work: seq<real>, end: real): State {
    State(end - Base(end, |work|) as real, work[Base(end, |work|)..])
  }

  lemma ProcessedIs(rates: Rates, w: real -> real, s: State, input: seq<real>, cap: nat)
    requires rates.Valid() && Late(s.phase)
    ensures Ratio(rates) > 0.0
    ensures var res := Produce(Ratio(rates), w, s.carry + input, s.phase, cap);
            Processed(rates, w, s, input, cap) == (Rest(s.carry + input, res.0), res.1)
  {
    hide Produce, Late, Base;
  }

  /** Cutting the carry at Base keeps it a suffix of the signal. */
  lemma Rebase(rates: Rates, fed: seq<real>, base: nat, k: nat, end: real)
    requires rates.Valid() && base <= |Padded(fed)| && end == Position(rates, k) - base as real && Late(end)
    ensures Synced(rates, Rest(Padded(fed)[base..], end), fed, k)
    ensures Beyond(end, |Padded(fed)| - base) ==>
              |Rest(Padded(fed)[base..], end).carry| <= TAPS - 1 && Beyond(Position(rates, k), |Padded(fed)|)
  {
    hide Position, Padded;
    var z := Padded(fed);
    var b := Base(end, |z| - base);
    assert z[base..][b..] == z[base + b..];
    assert (end - b as real).Floor == end.Floor - b;
  }

  // ---------------------------------------------------------------- whole runs

  /** One call's input block and output capacity. */
  datatype Call = Call(input: seq<real>, cap: nat)

  function Fed(calls: seq<Call>): seq<real> {
    if calls == [] then [] else Fed(calls[..|calls| - 1]) + calls[|calls| - 1].input
  }

  /** The converter after these calls. */
  ghost function After(rates: Rates, w: real -> real, calls: seq<Call>): (s: State)
    requires rates.Valid()
    ensures Late(s.phase)
    decreases |calls|
  {
    if calls == [] then START
    else
      var s, last := After(rates, w, calls[..|calls| - 1]), calls[|calls| - 1];
      KeepsPhase(rates, w, s, last);
      Processed(rates, w, s, last.input, last.cap).0
  }

  /** Everything the calls produced, concatenated. */
  ghost function Emitted(rates: Rates, w: real -> real, calls: seq<Call>): seq<real>
    requires rates.Valid()
    decreases |calls|
  {
    if calls == [] then []
    else
      var front, last := calls[..|calls| - 1], calls[|calls| - 1];
      Emitted(rates, w, front) + Processed(rates, w, After(rates, w, front), last.input, last.cap).1
  }

  lemma KeepsPhase(rates: Rates, w: real -> real, s: State, c: Call)
    requires rates.Valid() && Late(s.phase)
    ensures Late(Processed(rates, w, s, c.input, c.cap).0.phase)
  {
    RatioPositive(rates);
    var work := s.carry + c.input;
    var end := Produce(Ratio(rates), w, work, s.phase, c.cap).0;
    assert (end - Base(end, |work|) as real).Floor == end.Floor - Base(end, |work|);
  }

  /**
   Chunk invariance: however the input is split and whatever the capacities, the concatenated
   outputs are the first elements of the ideal sequence of the whole signal.
  */
  lemma {:induction false} OutputsAreIdeal(rates: Rates, w: real -> real, calls: seq<Call>)
    requires rates.Valid()
    ensures var out, z := Emitted(rates, w, calls), Padded(Fed(calls));
            && Synced(rates, After(rates, w, calls), Fed(calls), |out|)
            && IsIdeal(rates, w, z, 0, out)
    decreases |calls|
  {
    if calls == [] {
      StartSynced(rates);
    } else {
      var front, last := calls[..|calls| - 1], calls[|calls| - 1];
      OutputsAreIdeal(rates, w, front);
      LastCall(rates, w, front, last, calls);
    }
  }

  lemma UnfoldRun(rates: Rates, w: real -> real, front: seq<Call>, last: Call, calls: seq<Call>)
    requires rates.Valid() && calls != [] && front == calls[..|calls| - 1] && last == calls[|calls| - 1]
    ensures Fed(calls) == Fed(front) + last.input
    ensures var res := Processed(rates, w, After(rates, w, front), last.input, last.cap);
            After(rates, w, calls) == res.0 && Emitted(rates, w, calls) == Emitted(rates, w, front) + res.1
  {
    hide Processed;
  }

  lemma PaddedGrows(fed: seq<real>, input: seq<real>)
    ensures Padded(fed + input) == Padded(fed) + input && |Padded(fed)| == TAPS + |fed|
  {
    assert (ZEROS + fed) + input == ZEROS + (fed + input);
  }

  lemma LastCall(rates: Rates, w: real -> real, front: seq<Call>, last: Call, calls: seq<Call>)
    requires rates.Valid() && calls != [] && front == calls[..|calls| - 1] && last == calls[|calls| - 1]
    requires Synced(rates, After(rates, w, front), Fed(front), |Emitted(rates, w, front)|)
    requires IsIdeal(rates, w, Padded(Fed(front)), 0, Emitted(rates, w, front))
    ensures var out, z := Emitted(rates, w, calls), Padded(Fed(calls));
            && Synced(rates, After(rates, w, calls), Fed(calls), |out|)
            && IsIdeal(rates, w, z, 0, out)
  {
    hide *;
    var s, out := After(rates, w, front), Emitted(rates, w, front);
    CallIsIdeal(rates, w, s, Fed(front), |out|, last.input, last.cap);
    UnfoldRun(rates, w, front, last, calls);
    PaddedGrows(Fed(front), last.input);
    var z, more := Padded(Fed(front)), Processed(rates, w, s, last.input, last.cap).1;
    IdealAppend(rates, w, z, last.input, out, more);
    assert |out + more| == |out| + |more|;
  }

  /** Two runs over the same signal agree as far as both have produced. */
  lemma ChunkingIsInvisible(rates: Rates, w: real -> real, a: seq<Call>, b: seq<Call>)
    requires rates.Valid() && Fed(a) == Fed(b)
    ensures |Emitted(rates, w, a)| <= |Emitted(rates, w, b)| ==> Emitted(rates, w, a) <= Emitted(rates, w, b)
  {
    OutputsAreIdeal(rates, w, a);
    OutputsAreIdeal(rates, w, b);
    hide Position, Interpolate, Ratio, Processed, Emitted, After, Fed, Synced, InRange;
    var x, y := Emitted(rates, w, a), Emitted(rates, w, b);
    forall j | 0 <= j < |x| && j < |y|
      ensures x[j] == y[j]
    {
      assert Correct(rates, w, Padded(Fed(a)), 0 + j, x[j]) && Correct(rates, w, Padded(Fed(b)), 0 + j, y[j]);
    }
  }

  /** The last call stopped for want of input, not of room. */
  ghost predicate RoomLeft(rates: Rates, w: real -> real, calls: seq<Call>)
    requires rates.Valid() && calls != []
  {
    |Emitted(rates, w, calls)| - |Emitted(rates, w, calls[..|calls| - 1])| < calls[|calls| - 1].cap
  }

  /** Output k exists as soon as k * inRate < (n - 8) * outRate. */
  lemma InRangeIff(rates: Rates, k: nat, n: nat)
    requires rates.Valid()
    ensures !Beyond(Position(rates, k), TAPS + n) <==> k * rates.inRate < (n - HALF) * rates.outRate
  {
    var i, o := rates.inRate as real, rates.outRate as real;
    var kr := k as real * Ratio(rates);
    var m := n - HALF;
    assert !Beyond(Position(rates, k), TAPS + n) <==> kr < m as real;
    assert kr * o == k as real * i by { Cross(k as real, i, o); }
    Compare(kr, m as real, o);
    assert (k * rates.inRate) as real == k as real * i;
    assert (m * rates.outRate) as real == m as real * o;
  }

  lemma Cross(k: real, i: real, o: real)
    requires o > 0.0
    ensures (k * (i / o)) * o == k * i
  {
    var q := i / o;
    assert q * o == i;
    assert (k * q) * o == k * (q * o);
  }

  lemma Compare(a: real, b: real, o: real)
    requires o > 0.0
    ensures a < b <==> a * o < b * o
  {
    if a < b {
      assert (b - a) * o > 0.0;
    } else {
      assert (a - b) * o >= 0.0;
    }
  }

  lemma CeilingIsLeast(a: nat, b: nat, k: nat)
    requires b > 0 && k * b >= a && (k > 0 ==> (k - 1) * b < a)
    ensures k == (a + b - 1) / b
  {
    var q := (a + b - 1) / b;
    assert q * b <= a + b - 1 < q * b + b;
    assert (k - 1) * b == k * b - b && (q - 1) * b == q * b - b && (q + 1) * b == q * b + b;
    Below(k - 1, q, b);
    Below(q - 1, k, b);
  }

  lemma Below(a: int, c: int, b: int)
    requires b > 0 && a * b < c * b
    ensures a < c
  {
  }

  /** With room left, exactly ceil((n - 8) * outRate / inRate) samples exist and the carry has at most 15. */
  lemma OutputCount(rates: Rates, w: real -> real, calls: seq<Call>)
    requires rates.Valid() && calls != []
    ensures RoomLeft(rates, w, calls) ==>
              |Emitted(rates, w, calls)| == Available(rates, |Fed(calls)|) && |After(rates, w, calls).carry| <= TAPS - 1
  {
    hide Position, Interpolate, Ratio, Processed, Available, RoomLeft, Emitted, After, Fed;
    if !RoomLeft(rates, w, calls) { return; }
    var k, n := |Emitted(rates, w, calls)|, |Fed(calls)|;
    assert calls == calls[..|calls| - 1] + [calls[|calls| - 1]];
    InputExhausted(rates, w, calls[..|calls| - 1], calls[|calls| - 1]);
    InRangeIff(rates, k, n);
    if k > 0 {
      LastOutputReady(rates, w, calls);
      InRangeIff(rates, k - 1, n);
    }
    CountIsCeiling(rates, k, n);
  }

  /** Output k needs more than n inputs. */
  predicate Awaits(rates: Rates, k: nat, n: nat)
    requires rates.Valid()
  {
    Beyond(Position(rates, k), TAPS + n)
  }

  /** A call that leaves room has used all the input. */
  lemma CallExhausts(rates: Rates, w: real -> real, s: State, fed: seq<real>, k: nat, last: Call)
    requires rates.Valid() && Synced(rates, s, fed, k)
    ensures var res := Processed(rates, w, s, last.input, last.cap);
            |res.1| < last.cap ==> |res.0.carry| <= TAPS - 1 && Awaits(rates, k + |res.1|, |fed + last.input|)
  {
    hide Processed, Synced, Position, Padded;
    CallIsIdeal(rates, w, s, fed, k, last.input, last.cap);
    PaddedGrows(fed, last.input);
    assert |Padded(fed) + last.input| == TAPS + |fed + last.input|;
  }

  lemma InputExhausted(rates: Rates, w: real -> real, front: seq<Call>, last: Call)
    requires rates.Valid()
    ensures var calls := front + [last];
            RoomLeft(rates, w, calls) ==>
              Awaits(rates, |Emitted(rates, w, calls)|, |Fed(calls)|) && |After(rates, w, calls).carry| <= TAPS - 1
  {
    hide *;
    LastCallCounts(rates, w, front, last);
    LastCallExhausts(rates, w, front, last);
  }

  /** The last call's share of the run. */
  lemma LastCallCounts(rates: Rates, w: real -> real, front: seq<Call>, last: Call)
    requires rates.Valid()
    ensures var calls, res := front + [last], Processed(rates, w, After(rates, w, front), last.input, last.cap);
            && After(rates, w, calls) == res.0
            && |Emitted(rates, w, calls)| == |Emitted(rates, w, front)| + |res.1|
            && |Fed(calls)| == |Fed(front)| + |last.input|
            && (RoomLeft(rates, w, calls) ==> |res.1| < last.cap)
  {
    var calls := front + [last];
    assert calls[..|calls| - 1] == front && calls[|calls| - 1] == last;
    UnfoldRun(rates, w, front, last, calls);
    hide Emitted, Processed, After, Fed;
  }

  lemma LastCallExhausts(rates: Rates, w: real -> real, front: seq<Call>, last: Call)
    requires rates.Valid()
    ensures var res := Processed(rates, w, After(rates, w, front), last.input, last.cap);
            |res.1| < last.cap ==>
              |res.0.carry| <= TAPS - 1 && Awaits(rates, |Emitted(rates, w, front)| + |res.1|, |Fed(front)| + |last.input|)
  {
    hide *;
    OutputsAreIdeal(rates, w, front);
    CallExhausts(rates, w, After(rates, w, front), Fed(front), |Emitted(rates, w, front)|, last);
    assert |Fed(front) + last.input| == |Fed(front)| + |last.input|;
  }

  lemma LastOutputReady(rates: Rates, w: real -> real, calls: seq<Call>)
    requires rates.Valid() && Emitted(rates, w, calls) != []
    ensures !Beyond(Position(rates, |Emitted(rates, w, calls)| - 1), TAPS + |Fed(calls)|)
  {
    hide *;
    OutputsAreIdeal(rates, w, calls);
    PaddedGrows(Fed(calls), []);
    IdealIsReady(rates, w, Padded(Fed(calls)), Emitted(rates, w, calls));
  }

  lemma IdealIsReady(rates: Rates, w: real -> real, z: seq<real>, out: seq<real>)
    requires rates.Valid() && IsIdeal(rates, w, z, 0, out) && out != []
    ensures !Beyond(Position(rates, |out| - 1), |z|)
  {
    hide Position, Interpolate, Late, Beyond;
    var k := |out| - 1;
    assert Correct(rates, w, z, 0 + k, out[k]);
  }

  lemma CountIsCeiling(rates: Rates, k: nat, n: nat)
    requires rates.Valid()
    requires k * rates.inRate >= (n - HALF) * rates.outRate
    requires k > 0 ==> (k - 1) * rates.inRate < (n - HALF) * rates.outRate
    ensures k == Available(rates, n)
  {
    if n <= HALF {
      NotPositive(n - HALF, rates.outRate);
      if k > 0 { NotPositive(1 - k, rates.inRate); }
    } else {
      CeilingIsLeast((n - HALF) * rates.outRate, rates.inRate, k);
    }
  }

  lemma NotPositive(a: int, b: nat)
    requires a <= 0
    ensures a * b <= 0 && -a * b >= 0
  {
  }

  /** The call that ends in `goal` has emitted `out` and stands at `phase` with room for `left` more. */
  ghost predicate Midway(goal: (real, seq<real>), out: seq<real>, r: real, w: real -> real, work: seq<real>, phase: real, left: nat)
  {
    Late(phase) && r > 0.0 && 
    var rest := Produce(r, w, work, phase, left);
    goal.0 == rest.0 && goal.1 == out + rest.1
  }

  lemma EmitBegins(r: real, w: real -> real, work: seq<real>, phase: real, cap: nat)
    requires Late(phase) && r > 0.0
    ensures Midway(Produce(r, w, work, phase, cap), [], r, w, work, phase, cap)
  {
    hide Produce;
    var rest := Produce(r, w, work, phase, cap);
    assert [] + rest.1 == rest.1;
  }

  lemma EmitSteps(goal: (real, seq<real>), out: seq<real>, r: real, w: real -> real, work: seq<real>, phase: real, left: nat)
    requires Midway(goal, out, r, w, work, phase, left) && left > 0 && !Beyond(phase, |work|)
    ensures InRange(work, phase)
    ensures Midway(goal, out + [Interpolate(w, work, phase)], r, w, work, phase + r, left - 1)
  {
    hide Interpolate;
    var y, rest := Interpolate(w, work, phase), Produce(r, w, work, phase + r, left - 1);
    assert out + ([y] + rest.1) == (out + [y]) + rest.1;
  }

  lemma EmitStops(goal: (real, seq<real>), out: seq<real>, r: real, w: real -> real, work: seq<real>, phase: real, left: nat)
    requires Midway(goal, out, r, w, work, phase, left) && (left == 0 || Beyond(phase, |work|))
    ensures goal == (phase, out)
  {
    assert out + [] == out;
  }

  // ---------------------------------------------------------------- the class

  class Resampler {
    const rates: Rates
    const w: real -> real
    var phase: real
    var carry: seq<real>
    var work: seq<real>

    ghost function Abs(): State
      reads this
    {
      State(phase, carry)
    }

    ghost predicate Valid()
      reads this
    {
      rates.Valid() && Late(phase)
    }

    predicate Passthrough() {
      rates.inRate == rates.outRate
    }

    constructor (rates: Rates, w: real -> real)
      requires rates.Valid()
      ensures Valid() && this.rates == rates && this.w == w && Abs() == START
    {
      this.rates, this.w := rates, w;
      phase, carry, work := TAPS as real, ZEROS, [];
    }

    method Reset()
      requires rates.Valid()
      modifies this
      ensures Valid() && Abs() == START
    {
      carry := ZEROS;
      phase := TAPS as real;
    }

    /** Feeds a block. At equal rates the block passes through, cut to the capacity. */
    method Process(input: seq<real>, outCap: nat) returns (out: seq<real>)
      requires Valid()
      modifies this
      ensures Valid()
      ensures if Passthrough() then Abs() == old(Abs()) && out == input[..if |input| < outCap then |input| else outCap]
              else (Abs(), out) == Processed(rates, w, old(Abs()), input, outCap)
    {
      if Passthrough() {
        var m := if |input| < outCap then |input| else outCap;
        return input[..m];
      }
      work := carry + input;
      var total := |work|;
      out := Emit(outCap);
      KeepsPhase(rates, w, old(Abs()), Call(input, outCap));
      hide Produce;
      var base := phase.Floor - HALF + 1;
      if base < 0 { base := 0; }
      if base > total { base := total; }
      carry := work[base..];
      phase := phase - base as real;
    }

    /** The producing loop over the work buffer. */
    method Emit(outCap: nat) returns (out: seq<real>)
      requires rates.Valid() && Late(phase)
      modifies this`phase
      ensures (phase, out) == Produce(Ratio(rates), w, work, old(phase), outCap)
    {
      RatioPositive(rates);
      var ratio := Ratio(rates);
      hide *;
      out := [];
      ghost var goal := Produce(ratio, w, work, phase, outCap);
      EmitBegins(ratio, w, work, phase, outCap);
      while |out| < outCap
        invariant |out| <= outCap
        invariant Midway(goal, out, ratio, w, work, phase, outCap - |out|)
        decreases outCap - |out|
      {
        var center := phase.Floor;
        if center + HALF >= |work| {
          break;
        }
        EmitSteps(goal, out, ratio, w, work, phase, outCap - |out|);
        var y := Tap(center);
        out := out + [y];
        phase := phase + ratio;
      }
      EmitStops(goal, out, ratio, w, work, phase, outCap - |out|);
    }

    /** The tap loop. The edge test of the original never skips a tap. */
    method Tap(center: int) returns (y: real)
      requires center == phase.Floor && InRange(work, phase)
      ensures y == Interpolate(w, work, phase)
    {
      var acc, wsum := 0.0, 0.0;
      for i := center - HALF + 1 to center + HALF + 1
        invariant acc == Acc(w, work, phase, center - HALF + 1, i) && wsum == WSum(w, phase, center - HALF + 1, i)
      {
        assert 0 <= i < |work|;
        if i < 0 || i >= |work| {
          continue;
        }
        var weight := w(phase - i as real);
        acc := acc + weight * work[i];
        wsum := wsum + weight;
      }
      y := if wsum > 0.000000001 then acc / wsum else acc;
    }
  }
}
