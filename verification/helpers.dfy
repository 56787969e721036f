/** The numeric helpers of `helpers.py`: the price point record, slot-length
    inference, the centred moving average, clamping and step quantisation. */
module Helpers {
  import opened RealMath

  /** Slot length assumed when it cannot be inferred: 15 minutes in milliseconds. */
  const DEFAULT_SLOT_MS: int := 15 * 60 * 1000
  /** Inferred slot lengths must be shorter than 6 hours. */
  const MAX_SLOT_MS: int := 6 * 60 * 60 * 1000

  /** One price slot `[startTs, endTs)` in UTC epoch milliseconds. */
  datatype Point = Point(startTs: int, endTs: int, value: real)

  /** The gap between the first two slot starts, when there are two. */
  function FirstGap(points: seq<Point>): int
    requires |points| >= 2
  {
    points[1].startTs - points[0].startTs
  }

  /** `infer_slot_ms`: the first gap when it is a plausible slot length, else 15 minutes. */
  function InferSlotMs(points: seq<Point>): (r: int)
    ensures 0 < r < MAX_SLOT_MS
    ensures |points| >= 2 && 0 < FirstGap(points) < MAX_SLOT_MS ==> r == FirstGap(points)
    ensures !(|points| >= 2 && 0 < FirstGap(points) < MAX_SLOT_MS) ==> r == DEFAULT_SLOT_MS
  {
    if |points| >= 2 && 0 < FirstGap(points) < MAX_SLOT_MS then FirstGap(points)
    else DEFAULT_SLOT_MS
  }

  /** `clamp(x, lo, hi) = max(lo, min(hi, x))`. */
  function Clamp(x: real, lo: real, hi: real): (r: real)
    ensures lo <= hi ==> lo <= r <= hi
    ensures lo <= x <= hi ==> r == x
    ensures lo <= hi && x < lo ==> r == lo
    ensures lo <= hi && x > hi ==> r == hi
  {
    Max(lo, if hi <= x then hi else x)
  }

  /** Clamping twice to the same bounds is clamping once. */
  lemma ClampIdempotent(x: real, lo: real, hi: real)
    requires lo <= hi
    ensures Clamp(Clamp(x, lo, hi), lo, hi) == Clamp(x, lo, hi)
  {
  }

  /** `r` is an integer multiple of `step`. */
  ghost predicate IsStepMultiple(r: real, step: real)
    requires step != 0.0
  {
    (r / step).Floor as real == r / step
  }

  /** `quantize_step`: snap to the nearest multiple of `step` (ties to an even multiple);
      the identity when `step <= 0`. */
  function Quantize(x: real, step: real): (r: real)
    ensures step <= 0.0 ==> r == x
    ensures step > 0.0 ==> IsStepMultiple(r, step) && Abs(r - x) <= step / 2.0
    ensures step > 0.0 && x <= 0.0 ==> r <= 0.0
    ensures step > 0.0 && x >= 0.0 ==> r >= 0.0
  {
    if step <= 0.0 then x
    else
      var k := RoundHalfEven(x / step);
      QuantizeFacts(x, step, k);
      k as real * step
  }

  lemma QuantizeFacts(x: real, step: real, k: int)
    requires step > 0.0
    requires Abs(k as real - x / step) <= 0.5
    ensures IsStepMultiple(k as real * step, step)
    ensures Abs(k as real * step - x) <= step / 2.0
    ensures x <= 0.0 ==> k as real * step <= 0.0
    ensures x >= 0.0 ==> k as real * step >= 0.0
  {
    var y := x / step;
    var kr := k as real;
    IntMultiple(k, step);
    DivCancel(x, step);
    assert kr * step - x == (kr - y) * step;
    ScaledDistance(kr - y, step);
    DivSign(x, step);
    if x <= 0.0 {
      assert k <= 0;
      MulNonneg(-kr, step);
    }
    if x >= 0.0 {
      assert k >= 0;
      MulNonneg(kr, step);
    }
  }

  lemma IntMultiple(k: int, step: real)
    requires step > 0.0
    ensures IsStepMultiple(k as real * step, step)
  {
    DivCancel(k as real, step);
    FloorOfInt(k);
  }

  lemma ScaledDistance(d: real, step: real)
    requires step > 0.0 && Abs(d) <= 0.5
    ensures Abs(d * step) <= step / 2.0
  {
    assert 0.5 * step == step / 2.0;
    if d >= 0.0 {
      MulMonotone(d, 0.5, step);
      MulNonneg(d, step);
      assert Abs(d * step) == d * step;
    } else {
      MulMonotone(-d, 0.5, step);
      assert -(d * step) == (-d) * step;
    }
  }

  /** Index of the first element of the truncated window centred on `i`. */
  function WindowLo(i: int, half: int): int
  {
    MaxInt(0, i - half)
  }

  /** Index one past the last element of the truncated window centred on `i`. */
  function WindowHi(i: int, half: int, n: int): int
  {
    MinInt(n, i + half + 1)
  }

  /** The truncated window always holds slot `i` and stays inside the sequence. */
  lemma WindowFacts(i: int, half: int, n: int)
    requires 0 <= i < n && half >= 0
    ensures 0 <= WindowLo(i, half) <= i < WindowHi(i, half, n) <= n
    ensures WindowHi(i, half, n) - WindowLo(i, half) <= 2 * half + 1
  {
  }

  /** `moving_average(values, window)`: a centred mean over `window // 2` slots on each
      side, truncated (not padded) at both ends; a plain copy when `window <= 1`. */
  function MovingAverage(values: seq<real>, window: int): (r: seq<real>)
    ensures |r| == |values|
    ensures window <= 1 ==> r == values
  {
    if window <= 1 then values
    else
      var half := window / 2;
      seq(|values|, i requires 0 <= i < |values| =>
        WindowFacts(i, half, |values|);
        Mean(values[WindowLo(i, half)..WindowHi(i, half, |values|)]))
  }

  /** Smoothing never leaves the range of its input. */
  lemma MovingAverageBounded(values: seq<real>, window: int, lo: real, hi: real)
    requires forall k :: 0 <= k < |values| ==> lo <= values[k] <= hi
    ensures forall i :: 0 <= i < |values| ==> lo <= MovingAverage(values, window)[i] <= hi
  {
    if window > 1 {
      var half := window / 2;
      forall i | 0 <= i < |values|
        ensures lo <= MovingAverage(values, window)[i] <= hi
      {
        WindowFacts(i, half, |values|);
        var w := values[WindowLo(i, half)..WindowHi(i, half, |values|)];
        assert forall k :: 0 <= k < |w| ==> lo <= w[k] <= hi;
        MeanBounds(w, lo, hi);
      }
    }
  }

  /** A constant series stays constant under smoothing. */
  lemma MovingAverageConstant(values: seq<real>, window: int, c: real)
    requires forall k :: 0 <= k < |values| ==> values[k] == c
    ensures forall i :: 0 <= i < |values| ==> MovingAverage(values, window)[i] == c
  {
    MovingAverageBounded(values, window, c, c);
  }

  /** Every output of the smoothing is the mean of a window that contains its own slot. */
  lemma MovingAverageWindow(values: seq<real>, window: int, i: int)
    requires window > 1 && 0 <= i < |values|
    ensures var lo, hi := WindowLo(i, window / 2), WindowHi(i, window / 2, |values|);
      0 <= lo <= i < hi <= |values| && hi - lo <= 2 * (window / 2) + 1
      && MovingAverage(values, window)[i] == Mean(values[lo..hi])
  {
    WindowFacts(i, window / 2, |values|);
  }
}
