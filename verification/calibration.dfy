/**
 The calibration procedure (`MQ131Sensor::calibrate`) as a pure state machine.

 The driver keeps a 20-slot ring buffer of resistance samples, a write index, a
 `uint32_t` running sum, a "filled" flag and the previous moving average. Each
 sample overwrites the slot at the index; once the buffer has been filled the
 moving average is compared with the previous one through the percentage
 difference `|actual - previous| * 100 / actual`, and calibration ends when that
 difference is `<= 0`. `Step` is one iteration of the driver's loop; `Run` drives
 it over a finite prefix of the sample stream.
 */
module Calibration {
  import opened Wrappers
  import opened UInt32

  /** Number of slots of the ring buffer (`array_len`). */
  const WindowLen: nat := 20

  /** Sum of a sequence of naturals. */
  function Sum(s: seq<nat>): nat
  {
    if |s| == 0 then 0 else s[0] + Sum(s[1..])
  }

  lemma {:induction false} SumUpdate(s: seq<nat>, i: nat, v: nat)
    requires i < |s|
    ensures Sum(s[i := v]) == Sum(s) - s[i] + v
  {
    if i == 0 {
      assert s[i := v][1..] == s[1..];
    } else {
      assert s[i := v][1..] == s[1..][i - 1 := v];
      SumUpdate(s[1..], i - 1, v);
    }
  }

  lemma {:induction false} SumAppend(s: seq<nat>, x: nat)
    ensures Sum(s + [x]) == Sum(s) + x
  {
    if |s| > 0 {
      assert (s + [x])[1..] == s[1..] + [x];
      SumAppend(s[1..], x);
    }
  }

  lemma {:induction false} SumOfConstant(s: seq<nat>, v: nat)
    requires forall i :: 0 <= i < |s| ==> s[i] == v
    ensures Sum(s) == |s| * v
  {
    if |s| > 0 {
      SumOfConstant(s[1..], v);
    }
  }

  lemma {:induction false} SumBound(s: seq<nat>, bound: nat)
    requires forall i :: 0 <= i < |s| ==> s[i] <= bound
    ensures Sum(s) <= |s| * bound
  {
    if |s| > 0 {
      SumBound(s[1..], bound);
    }
  }

  /**
   The moving average of a buffer whose (wrapped) sum is `sum`: `float(all_sum) / array_len`.
   Spread back over the 20 slots it gives the sum again.
   */
  function Average(sum: U32): (a: real)
    ensures a * WindowLen as real == sum as real
    ensures 0.0 <= a < Modulus as real / WindowLen as real
  {
    sum as real / WindowLen as real
  }

  /**
   The percentage difference `|actual - previous| * 100 / actual`. A zero
   `actual` makes the driver divide by zero (NaN or infinity, which compare false
   with everything); None stands for that.
   */
  function PercentDiff(actual: real, previous: real): (d: Option<real>)
    ensures d.None? <==> actual == 0.0
    ensures d.Some? && actual > 0.0 ==> d.value >= 0.0
  {
    if actual == 0.0 then None
    else
      var gap := if actual > previous then actual - previous else previous - actual;
      Some(gap * 100.0 / actual)
  }

  /** The test `diff <= 0` passes exactly when the average is nonzero and has not changed. */
  lemma SettledIff(actual: real, previous: real)
    requires actual >= 0.0
    ensures (PercentDiff(actual, previous).Some? && PercentDiff(actual, previous).value <= 0.0)
            <==> (actual == previous && actual != 0.0)
  {
    if actual != 0.0 {
      var gap := if actual > previous then actual - previous else previous - actual;
      assert gap >= 0.0;
      if gap > 0.0 {
        assert gap * 100.0 / actual > 0.0;
      }
    }
  }

  /** The calibration accumulator. */
  datatype State = State(
    buffer: seq<U32>,         // rsensor_data
    index: nat,               // write index
    sum: U32,                 // all_sum
    filled: bool,             // array_infilled
    previousAverage: real     // previous_average
  )

  /**
   Representation invariant: 20 slots, the index in range, the running sum the
   buffer's sum as a `uint32_t` holds it, and the previous average that of the
   current buffer once the buffer has been filled (0 before).
   */
  predicate Valid(c: State)
  {
    && |c.buffer| == WindowLen
    && c.index < WindowLen
    && c.sum == ReadAs(Sum(c.buffer))
    && c.previousAverage == (if c.filled then Average(c.sum) else 0.0)
  }

  lemma {:induction false} SumOfZeros(s: seq<U32>)
    requires forall i :: 0 <= i < |s| ==> s[i] == 0
    ensures Sum(s) == 0
  {
    if |s| > 0 {
      SumOfZeros(s[1..]);
    }
  }

  /** The state on entry: an all-zero buffer, index 0, sum 0, not filled, previous average 0. */
  function Start(): (c: State)
    ensures Valid(c)
    ensures c.index == 0 && !c.filled && c.previousAverage == 0.0
    ensures forall i :: 0 <= i < WindowLen ==> c.buffer[i] == 0
  {
    var zeros: seq<U32> := seq(WindowLen, _ => 0);
    SumOfZeros(zeros);
    State(zeros, 0, 0, false, 0.0)
  }

  lemma WrapSubAdd(total: int, evicted: int, sample: int)
    ensures Wrap(Wrap(total % Modulus - evicted) + sample) == (total - evicted + sample) % Modulus
  {
  }

  /**
   One iteration of the calibration loop on sample `sample`: overwrite the slot at
   the index, update the sum with `uint32_t` arithmetic, advance the index
   (wrapping to 0 and setting the filled flag after the last slot), and once the
   buffer is filled compare the new average with the previous one. The second
   component is the baseline when calibration ends on this sample.
   */
  function Step(c: State, sample: U32): (r: (State, Option<real>))
    requires Valid(c)
    ensures Valid(r.0)
    ensures r.0.index == if c.index == WindowLen - 1 then 0 else c.index + 1
    ensures r.0.buffer[c.index] == sample
    ensures forall i :: 0 <= i < WindowLen && i != c.index ==> r.0.buffer[i] == c.buffer[i]
    ensures r.0.filled <==> c.filled || c.index == WindowLen - 1
    ensures r.1.Some? <==> r.0.filled && r.0.sum != 0 && Average(r.0.sum) == c.previousAverage
    ensures r.1.Some? ==> r.1.value == Average(r.0.sum) && r.1.value > 0.0
  {
    var evicted := c.buffer[c.index];
    var sum := Wrap(Wrap(c.sum - evicted) + sample);
    var buffer := c.buffer[c.index := sample];
    SumUpdate(c.buffer, c.index, sample);
    ReadAsMatchesWrap(Sum(c.buffer));
    ReadAsMatchesWrap(Sum(buffer));
    WrapSubAdd(Sum(c.buffer), evicted, sample);
    var next := c.index + 1;
    var index := if next == WindowLen then 0 else next;
    var filled := c.filled || next == WindowLen;
    if filled then
      var actual := Average(sum);
      var diff := PercentDiff(actual, c.previousAverage);
      SettledIff(actual, c.previousAverage);
      var baseline := if diff.Some? && diff.value <= 0.0 then Some(actual) else None;
      (State(buffer, index, sum, filled, actual), baseline)
    else
      (State(buffer, index, sum, filled, c.previousAverage), None)
  }

  /** The state after feeding every sample of `samples` from `Start`, ignoring convergence. */
  function Feed(samples: seq<U32>): (c: State)
    ensures Valid(c)
  {
    if |samples| == 0 then Start()
    else Step(Feed(samples[..|samples| - 1]), samples[|samples| - 1]).0
  }

  /** The last (at most 20) samples: the ones a moving average over the buffer covers. */
  function Window(s: seq<U32>): (w: seq<U32>)
    ensures |w| == if |s| < WindowLen then |s| else WindowLen
  {
    if |s| <= WindowLen then s else s[|s| - WindowLen..]
  }

  /** The sample a new one pushes out of the window (0 while the buffer is still filling). */
  function Evicted(s: seq<U32>): U32
  {
    if |s| >= WindowLen then s[|s| - WindowLen] else 0
  }

  lemma WindowSlide(p: seq<U32>, x: U32)
    ensures Sum(Window(p + [x])) == Sum(Window(p)) - Evicted(p) + x
  {
    if |p| < WindowLen {
      SumAppend(p, x);
    } else {
      var tail := p[|p| - WindowLen + 1..];
      assert Window(p + [x]) == tail + [x];
      assert Window(p)[1..] == tail;
      SumAppend(tail, x);
    }
  }

  /** The ring-buffer slot the (j+1)-th sample is written to. */
  function Slot(j: nat): nat
  {
    j % WindowLen
  }

  /**
   Ring-buffer layout after the samples `p`: sample j of the last 20 sits in slot
   j mod 20, and slots not yet written are 0.
   */
  ghost predicate HoldsWindow(p: seq<U32>, c: State)
  {
    && |c.buffer| == WindowLen
    && (forall j: nat {:trigger c.buffer[Slot(j)]} ::
          j < |p| && |p| - WindowLen <= j ==> c.buffer[Slot(j)] == p[j])
    && (forall i :: |p| <= i < WindowLen ==> c.buffer[i] == 0)
  }

  /** The slot the next sample overwrites holds the sample that leaves the window. */
  lemma EvictedSlot(p: seq<U32>, c: State)
    requires c.index == Slot(|p|)
    requires HoldsWindow(p, c)
    ensures c.buffer[c.index] == Evicted(p)
  {
    if |p| >= WindowLen {
      var j := |p| - WindowLen;
      assert Slot(j) == c.index;
      assert c.buffer[Slot(j)] == p[j];
    }
  }

  /** One step keeps the layout. */
  lemma StepHoldsWindow(p: seq<U32>, x: U32, c: State)
    requires Valid(c)
    requires c.index == Slot(|p|)
    requires HoldsWindow(p, c)
    ensures HoldsWindow(p + [x], Step(c, x).0)
  {
    var s := p + [x];
    var d := Step(c, x).0;
    forall j: nat | j < |s| && |s| - WindowLen <= j
      ensures d.buffer[Slot(j)] == s[j]
    {
      if j < |p| {
        assert Slot(j) != c.index;
        assert d.buffer[Slot(j)] == c.buffer[Slot(j)];
        assert s[j] == p[j];
      }
    }
  }

  /** One step keeps the buffer's sum equal to the window's sum. */
  lemma StepSum(p: seq<U32>, x: U32, c: State)
    requires Valid(c)
    requires c.buffer[c.index] == Evicted(p)
    requires Sum(c.buffer) == Sum(Window(p))
    ensures Sum(Step(c, x).0.buffer) == Sum(Window(p + [x]))
  {
    assert Step(c, x).0.buffer == c.buffer[c.index := x];
    SumUpdate(c.buffer, c.index, x);
    WindowSlide(p, x);
  }

  /** Adding less than 2^32 in absolute value changes a `uint32_t` unless nothing is added. */
  lemma ShiftedWrapIff(total: int, delta: int)
    requires -Modulus < delta < Modulus
    ensures (total + delta) % Modulus == total % Modulus <==> delta == 0
  {
  }

  /**
   The value a `uint32_t` holds after accumulating `total`, by repeated
   subtraction of 2^32 (it agrees with `Wrap`, see `ReadAsMatchesWrap`).
   */
  function ReadAs(total: nat): U32
    decreases total
  {
    if total < Modulus then total else ReadAs(total - Modulus)
  }

  lemma {:induction false} ReadAsMatchesWrap(total: nat)
    ensures ReadAs(total) == total % Modulus
    decreases total
  {
    if total >= Modulus {
      ReadAsMatchesWrap(total - Modulus);
    }
  }

  /**
   Reference characterization of the end of calibration, independent of the state
   machine: the n-th sample (counting from 1) comes after the 20th, equals the
   sample it pushes out of the window, and the window's sum, as a `uint32_t`, is
   nonzero.
   */
  predicate SettlesAt(s: seq<U32>, n: nat)
  {
    WindowLen < n <= |s| && s[n - 1] == s[n - 1 - WindowLen] && ReadAs(Sum(Window(s[..n]))) != 0
  }

  /** The baseline a calibration ending on the n-th sample sets: the average of the window. */
  function BaselineAt(s: seq<U32>, n: nat): real
    requires n <= |s|
  {
    Average(ReadAs(Sum(Window(s[..n]))))
  }

  /** Calibration ends on none of the first n samples. */
  predicate NoneSettle(s: seq<U32>, n: nat)
  {
    n == 0 || (!SettlesAt(s, n) && NoneSettle(s, n - 1))
  }

  lemma {:induction false} NoneSettleIff(s: seq<U32>, n: nat)
    ensures NoneSettle(s, n) <==> forall m :: 1 <= m <= n ==> !SettlesAt(s, m)
  {
    if n > 0 {
      NoneSettleIff(s, n - 1);
    }
  }

  /** Calibration ends on sample n and on no earlier one. */
  predicate FirstSettle(s: seq<U32>, n: nat)
  {
    n > 0 && SettlesAt(s, n) && NoneSettle(s, n - 1)
  }

  /** Whether calibration ends on sample n depends only on the first n samples. */
  lemma SettlesOnPrefix(s: seq<U32>, n: nat)
    requires n <= |s|
    ensures SettlesAt(s, n) <==> SettlesAt(s[..n], n)
    ensures BaselineAt(s, n) == BaselineAt(s[..n], n)
  {
    assert s[..n][..n] == s[..n];
  }

  /** Settling on sample n only looks at the first n samples, the last of which is `samples[n - 1]`. */
  lemma SettlesAtExtend(samples: seq<U32>, n: nat)
    requires 1 <= n <= |samples|
    ensures SettlesAt(samples, n) <==> SettlesAt(samples[..n - 1] + [samples[n - 1]], n)
    ensures BaselineAt(samples, n) == BaselineAt(samples[..n - 1] + [samples[n - 1]], n)
  {
    assert samples[..n] == samples[..n - 1] + [samples[n - 1]];
    SettlesOnPrefix(samples, n);
  }

  /**
   What the accumulator holds after the samples `p`: the representation
   invariant, the index at |p| mod 20, the filled flag set iff 20 samples have
   been read, the window laid out in the ring, and the buffer summing to the
   window's sum.
   */
  ghost predicate Tracks(p: seq<U32>, c: State)
  {
    && Valid(c)
    && c.index == Slot(|p|)
    && (c.filled <==> |p| >= WindowLen)
    && HoldsWindow(p, c)
    && Sum(c.buffer) == Sum(Window(p))
  }

  lemma StartTracks()
    ensures Tracks([], Start())
  {
    SumOfZeros(Start().buffer);
  }

  /** One step keeps `Tracks`. */
  lemma StepTracks(p: seq<U32>, x: U32, c: State)
    requires Tracks(p, c)
    ensures Tracks(p + [x], Step(c, x).0)
  {
    var s := p + [x];
    var d := Step(c, x).0;
    EvictedSlot(p, c);
    StepHoldsWindow(p, x, c);
    StepSum(p, x, c);
    NextSlot(c.index, |p|);
  }

  /** Advancing the write index past the last slot wraps it to 0, as counting modulo 20 does. */
  lemma NextSlot(index: nat, count: nat)
    requires index == Slot(count)
    ensures (if index == WindowLen - 1 then 0 else index + 1) == Slot(count + 1)
    ensures count + 1 >= WindowLen <==> count >= WindowLen || index == WindowLen - 1
  {
  }

  /** Equal averages come from equal sums, and only a zero sum averages to zero. */
  lemma AverageInjective(a: U32, b: U32)
    ensures Average(a) == Average(b) <==> a == b
    ensures Average(a) == 0.0 <==> a == 0
  {
  }

  /**
   A step on the state that tracks `p` ends calibration exactly when `SettlesAt`
   says so for the extended stream, with the window's average as baseline.
   */
  lemma StepDecides(p: seq<U32>, x: U32, c: State)
    requires Tracks(p, c)
    ensures Step(c, x).1.Some? <==> SettlesAt(p + [x], |p| + 1)
    ensures Step(c, x).1.Some? ==> Step(c, x).1.value == BaselineAt(p + [x], |p| + 1)
  {
    var s := p + [x];
    var r := Step(c, x);
    StepTracks(p, x, c);
    EvictedSlot(p, c);
    WindowSlide(p, x);
    assert s[..|s|] == s;
    var before := Sum(Window(p));
    var after := Sum(Window(s));
    ReadAsMatchesWrap(before);
    ReadAsMatchesWrap(after);
    assert c.sum == before % Modulus;
    assert r.0.sum == after % Modulus;
    AverageInjective(r.0.sum, c.sum);
    if |p| >= WindowLen {
      assert c.filled && r.0.filled;
      assert Evicted(p) == s[|s| - 1 - WindowLen];
      ShiftedWrapIff(before, x - Evicted(p));
      assert r.0.sum == c.sum <==> x == Evicted(p);
    } else if |p| == WindowLen - 1 {
      assert !c.filled && c.previousAverage == 0.0;
      assert !SettlesAt(s, |s|);
    } else {
      assert !r.0.filled;
    }
  }

  /** The state after any sequence of samples tracks that sequence. */
  lemma {:induction false} FeedTracks(s: seq<U32>)
    ensures Tracks(s, Feed(s))
  {
    if |s| == 0 {
      StartTracks();
    } else {
      var p := s[..|s| - 1];
      assert s == p + [s[|s| - 1]];
      FeedTracks(p);
      StepTracks(p, s[|s| - 1], Feed(p));
    }
  }

  /** The state machine ends calibration on the n-th sample (counting from 1) of the stream `s`. */
  predicate ConvergesAt(s: seq<U32>, n: nat)
  {
    1 <= n <= |s| && Step(Feed(s[..n - 1]), s[n - 1]).1.Some?
  }

  /**
   The state machine ends calibration on exactly the samples `SettlesAt` names,
   with the window's average as baseline, which is positive. In particular no
   calibration ends before the 21st sample: the check on the 20th compares
   against a previous average of 0, and a zero average never passes.
   */
  lemma ConvergesAtIff(s: seq<U32>, n: nat)
    requires 1 <= n <= |s|
    ensures ConvergesAt(s, n) <==> SettlesAt(s, n)
    ensures ConvergesAt(s, n) ==> Step(Feed(s[..n - 1]), s[n - 1]).1.value == BaselineAt(s, n) > 0.0
  {
    var p := s[..n - 1];
    FeedTracks(p);
    StepDecides(p, s[n - 1], Feed(p));
    SettlesAtExtend(s, n);
  }

  /** No calibration ends on any of the first 20 samples. */
  lemma NoSettleWhileFilling(s: seq<U32>, n: nat)
    requires 1 <= n <= |s| && n <= WindowLen
    ensures !ConvergesAt(s, n)
  {
    ConvergesAtIff(s, n);
  }

  /** The outcome of a calibration that ended: how many samples it read and the baseline. */
  datatype Converged = Converged(steps: nat, baseline: real)

  /** Feeding the first n samples is feeding the first n - 1 and then one step. */
  lemma FeedExtend(samples: seq<U32>, n: nat)
    requires 1 <= n <= |samples|
    ensures Feed(samples[..n]) == Step(Feed(samples[..n - 1]), samples[n - 1]).0
  {
    assert samples[..n][..n - 1] == samples[..n - 1];
  }

  /**
   One pass of the driver's loop body on the n-th sample of `samples` (counting
   from 1), given the state after the samples before it: the next state, and the
   baseline if calibration ends on this sample.
   */
  method Advance(samples: seq<U32>, n: nat, c: State) returns (next: State, baseline: Option<real>)
    requires 1 <= n <= |samples|
    requires c == Feed(samples[..n - 1])
    requires NoneSettle(samples, n - 1)
    ensures next == Feed(samples[..n])
    ensures baseline.Some? <==> SettlesAt(samples, n)
    ensures baseline.Some? ==> FirstSettle(samples, n)
    ensures baseline.Some? ==> baseline.value == BaselineAt(samples, n) > 0.0
    ensures baseline.None? ==> NoneSettle(samples, n)
  {
    FeedExtend(samples, n);
    ConvergesAtIff(samples, n);
    var r := Step(c, samples[n - 1]);
    next, baseline := r.0, r.1;
  }

  /**
   The driver's loop over a finite prefix of the sample stream: the first sample
   on which calibration ends and the baseline it sets, or None if it does not end
   within `samples`.
   */
  method Run(samples: seq<U32>) returns (outcome: Option<Converged>)
    ensures outcome.Some? ==> outcome.value.steps <= |samples| && FirstSettle(samples, outcome.value.steps)
    ensures outcome.Some? ==> outcome.value.baseline == BaselineAt(samples, outcome.value.steps) > 0.0
    ensures outcome.None? ==> NoneSettle(samples, |samples|)
  {
    var c := Start();
    assert samples[..0] == [];
    var read := 0;
    while read < |samples|
      invariant read <= |samples|
      invariant c == Feed(samples[..read])
      invariant NoneSettle(samples, read)
    {
      var n := read + 1;
      var baseline;
      c, baseline := Advance(samples, n, c);
      if baseline.Some? {
        return Some(Converged(n, baseline.value));
      }
      read := n;
    }
    return None;
  }

  /**
   A constant nonzero stream ends calibration as early as possible, on the 21st
   sample, with the stream's value as baseline.
   */
  lemma ConstantStreamSettlesAt21(s: seq<U32>, v: U32)
    requires |s| > WindowLen
    requires forall i :: 0 <= i < |s| ==> s[i] == v
    requires 0 < v && WindowLen * v < Modulus
    ensures FirstSettle(s, WindowLen + 1)
    ensures BaselineAt(s, WindowLen + 1) == v as real
  {
    SumOfConstant(Window(s[..WindowLen + 1]), v);
    NoneSettleIff(s, WindowLen);
  }

  /**
   When every sample is below 2^32 / 20 the running sum never wraps, so the
   baseline is the arithmetic mean of the last 20 samples.
   */
  lemma BaselineIsWindowMean(s: seq<U32>, n: nat)
    requires WindowLen <= n <= |s|
    requires forall i :: 0 <= i < |s| ==> s[i] < Modulus / WindowLen
    ensures BaselineAt(s, n) == Sum(Window(s[..n])) as real / WindowLen as real
  {
    var w := Window(s[..n]);
    SumBound(w, Modulus / WindowLen - 1);
  }

  /**
   A falling moving average does not end calibration: when the new sample is
   smaller than the one it pushes out, the average drops, yet calibration goes
   on, because only an unchanged average ends it.
   */
  lemma DipDoesNotSettle(s: seq<U32>, n: nat)
    requires WindowLen < n <= |s|
    requires forall i :: 0 <= i < |s| ==> s[i] < Modulus / WindowLen
    requires s[n - 1] < s[n - 1 - WindowLen]
    ensures BaselineAt(s, n) < BaselineAt(s, n - 1)
    ensures !SettlesAt(s, n)
  {
    var p := s[..n - 1];
    assert s[..n] == p + [s[n - 1]];
    assert Evicted(p) == s[n - 1 - WindowLen];
    WindowSlide(p, s[n - 1]);
    var before, after := Sum(Window(p)), Sum(Window(s[..n]));
    assert after < before;
    BaselineIsWindowMean(s, n);
    BaselineIsWindowMean(s, n - 1);
    assert after as real / WindowLen as real < before as real / WindowLen as real;
  }
}
