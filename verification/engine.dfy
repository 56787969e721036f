/** The offset engine of `coordinator.py`: per-slot base offsets from a forward
    price window, then smoothing, clamping, step quantisation and the optional
    night cap with its bounded rebalancing. The local time of a slot is given by
    an oracle `toLocal` (UTC epoch milliseconds to local milliseconds of day),
    which stands in for the Europe/Stockholm conversion. */
module Engine {
  import opened RealMath
  import opened Helpers

  const DAY_MS: int := 24 * 60 * 60 * 1000
  /** The night starts at 22:30 local time ... */
  const NIGHT_START_MS: int := (22 * 60 + 30) * 60 * 1000
  /** ... and ends before 05:00 local time. */
  const NIGHT_END_MS: int := 5 * 60 * 60 * 1000
  /** Rebalancing runs at most this many passes. */
  const REBALANCE_PASSES: nat := 3
  /** A total offset smaller than this in magnitude counts as balanced. */
  const NEUTRAL_EPS: real := 0.000001

  /** A local time of day in milliseconds after midnight. */
  type MsOfDay = t: int | 0 <= t < 24 * 60 * 60 * 1000

  /** The engine's share of the configuration. */
  datatype Params = Params(maxOffset: real, stepSize: real, smoothingSlots: int, nightCap: bool)

  // ---------------------------------------------------------------- night mask

  /** `_is_night_slot`: local time at or after 22:30, or before 05:00. */
  predicate IsNightSlot(t: MsOfDay)
  {
    t >= NIGHT_START_MS || t < NIGHT_END_MS
  }

  /** The night is the 6.5 hours that follow 22:30, wrapping over midnight. */
  lemma NightIsSixAndAHalfHours(t: MsOfDay)
    ensures IsNightSlot(t) <==> (t - NIGHT_START_MS) % DAY_MS < 6 * 60 * 60 * 1000 + 30 * 60 * 1000
  {
    if t >= NIGHT_START_MS {
      assert (t - NIGHT_START_MS) % DAY_MS == t - NIGHT_START_MS;
    } else {
      assert (t - NIGHT_START_MS) % DAY_MS == t - NIGHT_START_MS + DAY_MS;
    }
  }

  /** The night flag of every slot, by its local start time. */
  function NightMask(prices: seq<Point>, toLocal: int -> MsOfDay): (r: seq<bool>)
    ensures |r| == |prices|
    ensures forall i :: 0 <= i < |prices| ==> r[i] == IsNightSlot(toLocal(prices[i].startTs))
  {
    seq(|prices|, i requires 0 <= i < |prices| => IsNightSlot(toLocal(prices[i].startTs)))
  }

  // ------------------------------------------------------------ base offsets

  function Values(prices: seq<Point>): (r: seq<real>)
    ensures |r| == |prices|
    ensures forall i :: 0 <= i < |prices| ==> r[i] == prices[i].value
  {
    seq(|prices|, i requires 0 <= i < |prices| => prices[i].value)
  }

  /** The forward window of slot `i`: `prices[i : min(n, i + horizon)]`. */
  function Window(vals: seq<real>, i: int, horizon: int): (w: seq<real>)
    requires 0 <= i < |vals| && horizon >= 1
    ensures |w| == MinInt(|vals| - i, horizon) && 1 <= |w|
    ensures forall k :: 0 <= k < |w| ==> w[k] == vals[i + k]
  {
    vals[i..MinInt(|vals|, i + horizon)]
  }

  /** The largest distance of a window value from `avg` (0 for an empty window). */
  function MaxAbsDev(ws: seq<real>, avg: real): (m: real)
    ensures m >= 0.0
    ensures forall k :: 0 <= k < |ws| ==> Abs(avg - ws[k]) <= m
    ensures |ws| > 0 ==> exists k :: 0 <= k < |ws| && Abs(avg - ws[k]) == m
    ensures |ws| == 0 ==> m == 0.0
  {
    if |ws| == 0 then 0.0
    else
      var rest := MaxAbsDev(ws[1..], avg);
      assert forall k :: 1 <= k < |ws| ==> ws[k] == ws[1..][k - 1];
      Max(Abs(avg - ws[0]), rest)
  }

  /** The loop body of `_compute_offsets` for slot `i`: zero for a window shorter than
      two slots or a flat window, otherwise the slot's distance below the window mean,
      scaled so that the window's most extreme slot would reach `maxOffset`. */
  function BaseOffset(vals: seq<real>, i: int, horizon: int, maxOffset: real): (r: real)
    requires 0 <= i < |vals| && horizon >= 1 && maxOffset > 0.0
    ensures -maxOffset <= r <= maxOffset
    ensures |Window(vals, i, horizon)| < 2 ==> r == 0.0
    ensures |Window(vals, i, horizon)| >= 2 ==>
      var avg := Mean(Window(vals, i, horizon));
      && (vals[i] > avg ==> r < 0.0)
      && (vals[i] < avg ==> r > 0.0)
      && (vals[i] == avg ==> r == 0.0)
      && ((MaxAbsDev(Window(vals, i, horizon), avg) > 0.0
           && Abs(avg - vals[i]) == MaxAbsDev(Window(vals, i, horizon), avg)) ==> Abs(r) == maxOffset)
  {
    var w := Window(vals, i, horizon);
    if |w| < 2 then 0.0
    else
      var avg := Mean(w);
      ScaledOffset(avg, vals[i], MaxAbsDev(w, avg), maxOffset)
  }

  /** The scaling step of the loop body: `clamp(k * (avg - value))` with
      `k = maxOffset / maxAbs`, or zero when `maxAbs <= 0`. */
  function ScaledOffset(avg: real, value: real, maxAbs: real, maxOffset: real): (r: real)
    requires maxOffset > 0.0 && Abs(avg - value) <= maxAbs
    ensures -maxOffset <= r <= maxOffset
    ensures value > avg ==> r < 0.0
    ensures value < avg ==> r > 0.0
    ensures value == avg ==> r == 0.0
    ensures maxAbs > 0.0 && Abs(avg - value) == maxAbs ==> Abs(r) == maxOffset
  {
    if maxAbs <= 0.0 then 0.0
    else
      ScaleFacts(maxOffset, maxAbs, avg - value);
      Clamp((maxOffset / maxAbs) * (avg - value), -maxOffset, maxOffset)
  }

  /** Scaling a deviation `d` with `|d| <= big` by `m / big` keeps its sign and stays
      within `m`, reaching `m` exactly when `|d| == big`. */
  lemma ScaleFacts(m: real, big: real, d: real)
    requires m > 0.0 && big > 0.0 && Abs(d) <= big
    ensures -m <= (m / big) * d <= m
    ensures d > 0.0 ==> (m / big) * d > 0.0
    ensures d < 0.0 ==> (m / big) * d < 0.0
    ensures d == 0.0 ==> (m / big) * d == 0.0
    ensures Abs(d) == big ==> Abs((m / big) * d) == m
  {
    var k := m / big;
    DivCancel(m, big);
    assert k > 0.0;
    assert k * big == m;
    if d >= 0.0 {
      MulMonotone(d, big, k);
      assert d * k <= big * k;
      MulNonneg(d, k);
      if d > 0.0 {
        assert k * d > 0.0;
      }
    } else {
      MulMonotone(-d, big, k);
      assert (-d) * k <= big * k;
      assert k * d == -((-d) * k);
      assert k * (-d) > 0.0;
    }
    if Abs(d) == big {
      if d >= 0.0 {
        assert k * d == k * big;
      } else {
        assert k * d == -(k * big);
      }
    }
  }

  /** A window whose prices are all equal yields offset zero. */
  lemma FlatWindowIsZero(vals: seq<real>, i: int, horizon: int, maxOffset: real)
    requires 0 <= i < |vals| && horizon >= 1 && maxOffset > 0.0
    requires forall k :: 0 <= k < |Window(vals, i, horizon)| ==> Window(vals, i, horizon)[k] == vals[i]
    ensures BaseOffset(vals, i, horizon, maxOffset) == 0.0
  {
    var w := Window(vals, i, horizon);
    if |w| >= 2 {
      MeanConstant(w, vals[i]);
    }
  }

  /** The last slot's window holds only itself, so its base offset is zero. */
  lemma LastSlotIsZero(vals: seq<real>, horizon: int, maxOffset: real)
    requires |vals| > 0 && horizon >= 1 && maxOffset > 0.0
    ensures BaseOffset(vals, |vals| - 1, horizon, maxOffset) == 0.0
  {
  }

  function BaseOffsets(vals: seq<real>, horizon: int, maxOffset: real): (r: seq<real>)
    requires horizon >= 1 && maxOffset > 0.0
    ensures |r| == |vals|
    ensures forall i :: 0 <= i < |vals| ==> r[i] == BaseOffset(vals, i, horizon, maxOffset)
  {
    seq(|vals|, i requires 0 <= i < |vals| => BaseOffset(vals, i, horizon, maxOffset))
  }

  // ------------------------------------------------------ element-wise stages

  /** Every element lies in `[-m, m]`. */
  predicate Bounded(s: seq<real>, m: real)
  {
    forall i :: 0 <= i < |s| ==> -m <= s[i] <= m
  }

  function ClampAll(s: seq<real>, m: real): (r: seq<real>)
    requires m >= 0.0
    ensures |r| == |s| && Bounded(r, m)
    ensures forall i :: 0 <= i < |s| ==> r[i] == Clamp(s[i], -m, m)
  {
    seq(|s|, i requires 0 <= i < |s| => Clamp(s[i], -m, m))
  }

  function QuantizeAll(s: seq<real>, step: real): (r: seq<real>)
    ensures |r| == |s|
    ensures forall i :: 0 <= i < |s| ==> r[i] == Quantize(s[i], step)
  {
    seq(|s|, i requires 0 <= i < |s| => Quantize(s[i], step))
  }

  /** Quantise then clamp, when a positive step is configured; otherwise unchanged.
      The result is a step multiple or one of the two bounds, an in-bounds input moves
      by at most half a step, and a non-positive input stays non-positive. */
  function Snap(s: seq<real>, step: real, m: real): (r: seq<real>)
    requires m > 0.0
    ensures |r| == |s|
    ensures step <= 0.0 ==> r == s
    ensures step > 0.0 ==> Bounded(r, m)
    ensures step > 0.0 ==> forall i :: 0 <= i < |r| ==> IsStepMultiple(r[i], step) || r[i] == m || r[i] == -m
    ensures step > 0.0 ==> forall i :: 0 <= i < |s| && -m <= s[i] <= m ==> Abs(r[i] - s[i]) <= step / 2.0
    ensures forall i :: 0 <= i < |s| && s[i] <= 0.0 ==> r[i] <= 0.0
  {
    if step > 0.0 then ClampAll(QuantizeAll(s, step), m) else s
  }

  // ------------------------------------------------------------ night cap

  /** A slot rebalancing may move: not at night and strictly inside the bounds. */
  predicate Adjustable(x: real, night: bool, m: real)
  {
    !night && -m < x < m
  }

  /** `len(adjustable)`. */
  function CountAdjustable(out: seq<real>, mask: seq<bool>, m: real): (c: nat)
    requires |mask| == |out|
    ensures c <= |out|
    ensures c == 0 <==> forall j :: 0 <= j < |out| ==> !Adjustable(out[j], mask[j], m)
  {
    if |out| == 0 then 0
    else
      assert forall j :: 1 <= j < |out| ==> out[j] == out[1..][j - 1] && mask[j] == mask[1..][j - 1];
      (if Adjustable(out[0], mask[0], m) then 1 else 0) + CountAdjustable(out[1..], mask[1..], m)
  }

  /** One rebalancing pass: every adjustable slot moves down by `correction`, clamped. */
  function RebalancePass(out: seq<real>, mask: seq<bool>, m: real, correction: real): (r: seq<real>)
    requires |mask| == |out|
    ensures |r| == |out|
    ensures forall j :: 0 <= j < |out| && !Adjustable(out[j], mask[j], m) ==> r[j] == out[j]
    ensures forall j :: 0 <= j < |out| && Adjustable(out[j], mask[j], m) ==>
      -m <= r[j] <= m && r[j] == Clamp(out[j] - correction, -m, m)
  {
    seq(|out|, j requires 0 <= j < |out| =>
      if Adjustable(out[j], mask[j], m) then Clamp(out[j] - correction, -m, m) else out[j])
  }

  /** The rebalancing loop with `passes` passes left: stop once the total is within
      `NEUTRAL_EPS` of zero or nothing is adjustable. Night slots and slots at or beyond
      the bounds never move, nothing is pushed out of bounds, an already balanced total
      is left alone, and the total only moves toward zero without changing sign. */
  function Rebalance(out: seq<real>, mask: seq<bool>, m: real, passes: nat): (r: seq<real>)
    requires |mask| == |out|
    ensures |r| == |out|
    ensures forall j :: 0 <= j < |out| && mask[j] ==> r[j] == out[j]
    ensures forall j :: 0 <= j < |out| && !(-m < out[j] < m) ==> r[j] == out[j]
    ensures Bounded(out, m) ==> Bounded(r, m)
    ensures Abs(Sum(out)) < NEUTRAL_EPS ==> r == out
    ensures Sum(out) >= 0.0 ==> 0.0 <= Sum(r) <= Sum(out)
    ensures Sum(out) <= 0.0 ==> Sum(out) <= Sum(r) <= 0.0
    decreases passes
  {
    if passes == 0 then out
    else
      var total := Sum(out);
      if Abs(total) < NEUTRAL_EPS then out
      else
        var count := CountAdjustable(out, mask, m);
        if count == 0 then out
        else
          PassMovesTowardZero(out, mask, m);
          Rebalance(RebalancePass(out, mask, m, total / count as real), mask, m, passes - 1)
  }

  /** A pass with a non-negative correction `c` lowers the total by at most `c` per
      adjustable slot: a clamp can only cut a correction short. */
  lemma PassLowers(out: seq<real>, mask: seq<bool>, m: real, c: real)
    requires |mask| == |out| && c >= 0.0
    ensures Sum(out) - Repeat(CountAdjustable(out, mask, m), c) <= Sum(RebalancePass(out, mask, m, c)) <= Sum(out)
  {
    var r := RebalancePass(out, mask, m, c);
    forall j | 0 <= j < |out| && Adjustable(out[j], mask[j], m)
      ensures out[j] - c <= r[j] <= out[j]
    {
      ClampedStep(out[j], m, c);
    }
    SumBetween(out, r, mask, m, c, 0.0);
    RepeatIsProduct(CountAdjustable(out, mask, m), 0.0);
  }

  /** The mirror of `PassLowers`: a non-positive correction raises the total by at most
      `-c` per adjustable slot. */
  lemma PassRaises(out: seq<real>, mask: seq<bool>, m: real, c: real)
    requires |mask| == |out| && c <= 0.0
    ensures Sum(out) <= Sum(RebalancePass(out, mask, m, c)) <= Sum(out) - Repeat(CountAdjustable(out, mask, m), c)
  {
    var r := RebalancePass(out, mask, m, c);
    forall j | 0 <= j < |out| && Adjustable(out[j], mask[j], m)
      ensures out[j] <= r[j] <= out[j] - c
    {
      ClampedStep(out[j], m, c);
    }
    SumBetween(out, r, mask, m, 0.0, c);
    RepeatIsProduct(CountAdjustable(out, mask, m), 0.0);
  }

  /** If every adjustable slot drops by between `b` and `a` and no other slot moves, the
      total drops by between `b` and `a` per adjustable slot. */
  lemma {:induction false} SumBetween(out: seq<real>, r: seq<real>, mask: seq<bool>, m: real, a: real, b: real)
    requires |mask| == |out| == |r|
    requires forall j :: 0 <= j < |out| && Adjustable(out[j], mask[j], m) ==> out[j] - a <= r[j] <= out[j] - b
    requires forall j :: 0 <= j < |out| && !Adjustable(out[j], mask[j], m) ==> r[j] == out[j]
    ensures Sum(out) - Repeat(CountAdjustable(out, mask, m), a) <= Sum(r) <= Sum(out) - Repeat(CountAdjustable(out, mask, m), b)
  {
    if |out| > 0 {
      SlotsShift(out, r, mask);
      SumBetween(out[1..], r[1..], mask[1..], m, a, b);
      var n := CountAdjustable(out[1..], mask[1..], m);
      assert Repeat(n + 1, a) == a + Repeat(n, a);
      assert Repeat(n + 1, b) == b + Repeat(n, b);
    }
  }

  /** The tails of three equally long sequences line up index by index. */
  lemma SlotsShift(out: seq<real>, r: seq<real>, mask: seq<bool>)
    requires |mask| == |out| == |r| && |out| > 0
    ensures forall j :: 0 <= j < |out| - 1 ==>
      out[1..][j] == out[j + 1] && r[1..][j] == r[j + 1] && mask[1..][j] == mask[j + 1]
  {
  }

  /** Moving a value strictly inside `(-m, m)` by `-c` and clamping lands between the
      value and its unclamped target. */
  lemma ClampedStep(x: real, m: real, c: real)
    requires -m < x < m
    ensures c >= 0.0 ==> x - c <= Clamp(x - c, -m, m) <= x
    ensures c <= 0.0 ==> x <= Clamp(x - c, -m, m) <= x - c
  {
  }

  /** One pass with the correction `total / count` moves the total toward zero and
      never past it. */
  lemma PassMovesTowardZero(out: seq<real>, mask: seq<bool>, m: real)
    requires |mask| == |out| && CountAdjustable(out, mask, m) > 0
    ensures var r := RebalancePass(out, mask, m, Sum(out) / CountAdjustable(out, mask, m) as real);
      && (Sum(out) >= 0.0 ==> 0.0 <= Sum(r) <= Sum(out))
      && (Sum(out) <= 0.0 ==> Sum(out) <= Sum(r) <= 0.0)
  {
    var count := CountAdjustable(out, mask, m);
    var c := Sum(out) / count as real;
    RepeatOfShare(count, Sum(out));
    DivSign(Sum(out), count as real);
    if c >= 0.0 {
      PassLowers(out, mask, m, c);
    } else {
      PassRaises(out, mask, m, c);
    }
  }

  /** Zero every positive night slot. */
  function CapNight(offsets: seq<real>, mask: seq<bool>): (r: seq<real>)
    requires |mask| == |offsets|
    ensures |r| == |offsets|
    ensures forall i :: 0 <= i < |offsets| ==> r[i] == (if mask[i] && offsets[i] > 0.0 then 0.0 else offsets[i])
  {
    seq(|offsets|, i requires 0 <= i < |offsets| => if mask[i] && offsets[i] > 0.0 then 0.0 else offsets[i])
  }

  /** `_apply_night_cap`: the identity when the cap is off or there are no offsets;
      otherwise every night slot ends as `min(offset, 0)`, non-night slots at or beyond
      the bounds are untouched, bounded offsets stay bounded, and rebalancing moves the
      capped total toward zero without overshooting it. */
  function ApplyNightCap(offsets: seq<real>, prices: seq<Point>, nightCap: bool, m: real,
                         toLocal: int -> MsOfDay): (r: seq<real>)
    requires |prices| == |offsets|
    ensures |r| == |offsets|
    ensures !nightCap || |offsets| == 0 ==> r == offsets
    ensures nightCap ==> forall i :: 0 <= i < |r| && IsNightSlot(toLocal(prices[i].startTs)) ==>
      r[i] == (if offsets[i] > 0.0 then 0.0 else offsets[i])
    ensures forall i :: 0 <= i < |r| && !(-m < offsets[i] < m) && !IsNightSlot(toLocal(prices[i].startTs)) ==>
      r[i] == offsets[i]
    ensures m >= 0.0 && Bounded(offsets, m) ==> Bounded(r, m)
    ensures nightCap && |offsets| > 0 ==>
      var capped := CapNight(offsets, NightMask(prices, toLocal));
      && (Sum(capped) >= 0.0 ==> 0.0 <= Sum(r) <= Sum(capped))
      && (Sum(capped) <= 0.0 ==> Sum(capped) <= Sum(r) <= 0.0)
  {
    if !nightCap || |offsets| == 0 then offsets
    else
      var mask := NightMask(prices, toLocal);
      Rebalance(CapNight(offsets, mask), mask, m, REBALANCE_PASSES)
  }

  // ------------------------------------------------------ energy neutrality

  /** A pass whose corrections are not cut by the bounds lowers the total by
      `correction` for each adjustable slot. */
  lemma PassSum(out: seq<real>, mask: seq<bool>, m: real, c: real)
    requires |mask| == |out|
    requires forall j :: 0 <= j < |out| && Adjustable(out[j], mask[j], m) ==> -m <= out[j] - c <= m
    ensures Sum(RebalancePass(out, mask, m, c)) == Sum(out) - Repeat(CountAdjustable(out, mask, m), c)
  {
    SumBetween(out, RebalancePass(out, mask, m, c), mask, m, c, c);
  }

  /** When no adjustable slot hits a bound, one pass restores a zero total
      ("energy neutrality"). */
  lemma PassNeutralizes(out: seq<real>, mask: seq<bool>, m: real)
    requires |mask| == |out| && CountAdjustable(out, mask, m) > 0
    requires var c := Sum(out) / CountAdjustable(out, mask, m) as real;
      forall j :: 0 <= j < |out| && Adjustable(out[j], mask[j], m) ==> -m <= out[j] - c <= m
    ensures Sum(RebalancePass(out, mask, m, Sum(out) / CountAdjustable(out, mask, m) as real)) == 0.0
  {
    var count := CountAdjustable(out, mask, m);
    var c := Sum(out) / count as real;
    PassSum(out, mask, m, c);
    RepeatOfShare(count, Sum(out));
  }

  // -------------------------------------------------------------- pipeline

  /** `_compute_offsets`: one offset per slot; all zero when `maxOffset <= 0`; otherwise
      bounded by `maxOffset`, never positive at night when the cap is on, and, with a
      positive step, each a multiple of the step or one of the two bounds. */
  function ComputeOffsets(prices: seq<Point>, horizon: int, p: Params, toLocal: int -> MsOfDay): (r: seq<real>)
    requires horizon >= 1
    ensures |r| == |prices|
    ensures p.maxOffset <= 0.0 ==> forall i :: 0 <= i < |r| ==> r[i] == 0.0
    ensures p.maxOffset > 0.0 ==> Bounded(r, p.maxOffset)
    ensures p.nightCap ==> forall i :: 0 <= i < |r| && IsNightSlot(toLocal(prices[i].startTs)) ==> r[i] <= 0.0
    ensures p.maxOffset > 0.0 && p.stepSize > 0.0 ==>
      forall i :: 0 <= i < |r| ==> IsStepMultiple(r[i], p.stepSize) || r[i] == p.maxOffset || r[i] == -p.maxOffset
  {
    if |prices| == 0 then []
    else if p.maxOffset <= 0.0 then seq(|prices|, _ => 0.0)
    else
      var m := p.maxOffset;
      var smoothed := ClampAll(MovingAverage(BaseOffsets(Values(prices), horizon, m), p.smoothingSlots), m);
      var snapped := Snap(smoothed, p.stepSize, m);
      var capped := ApplyNightCap(snapped, prices, p.nightCap, m, toLocal);
      Snap(capped, p.stepSize, m)
  }

  /** The base offsets are already bounded, so smoothing keeps them bounded and the clamp
      that follows it changes nothing. */
  lemma SmoothingClampIsInert(prices: seq<Point>, horizon: int, p: Params)
    requires horizon >= 1 && p.maxOffset > 0.0
    ensures var smooth := MovingAverage(BaseOffsets(Values(prices), horizon, p.maxOffset), p.smoothingSlots);
      ClampAll(smooth, p.maxOffset) == smooth
  {
    var m := p.maxOffset;
    var base := BaseOffsets(Values(prices), horizon, m);
    MovingAverageBounded(base, p.smoothingSlots, -m, m);
  }

  /** Without smoothing, step and night cap the offsets are exactly the base offsets. */
  lemma PlainPipeline(prices: seq<Point>, horizon: int, p: Params, toLocal: int -> MsOfDay)
    requires |prices| > 0 && horizon >= 1 && p.maxOffset > 0.0
    requires p.smoothingSlots <= 1 && p.stepSize <= 0.0 && !p.nightCap
    ensures ComputeOffsets(prices, horizon, p, toLocal) == BaseOffsets(Values(prices), horizon, p.maxOffset)
  {
    SmoothingClampIsInert(prices, horizon, p);
  }

  /** Four hourly slots priced 10, 20, 10, 20 with a four-hour horizon, no smoothing, no
      step and no night cap: each slot is scaled within its own (shrinking) forward window. */
  lemma FourSlotScenario(toLocal: int -> MsOfDay)
    ensures var h := 3_600_000;
      var prices := [Point(0, h, 10.0), Point(h, 2 * h, 20.0), Point(2 * h, 3 * h, 10.0), Point(3 * h, 4 * h, 20.0)];
      ComputeOffsets(prices, 4, Params(1.0, 0.0, 1, false), toLocal) == [1.0, -0.5, 1.0, 0.0]
  {
    var h := 3_600_000;
    var prices := [Point(0, h, 10.0), Point(h, 2 * h, 20.0), Point(2 * h, 3 * h, 10.0), Point(3 * h, 4 * h, 20.0)];
    assert Values(prices) == [10.0, 20.0, 10.0, 20.0];
    PlainPipeline(prices, 4, Params(1.0, 0.0, 1, false), toLocal);
    ScenarioBase();
  }

  /** The base offsets of the scenario. */
  lemma ScenarioBase()
    ensures BaseOffsets([10.0, 20.0, 10.0, 20.0], 4, 1.0) == [1.0, -0.5, 1.0, 0.0]
  {
    var base := BaseOffsets([10.0, 20.0, 10.0, 20.0], 4, 1.0);
    ScenarioSlots();
    SeqOfFour(base, 1.0, -0.5, 1.0, 0.0);
  }

  /** A four-element sequence given element by element. */
  lemma SeqOfFour(s: seq<real>, a: real, b: real, c: real, d: real)
    requires |s| == 4 && s[0] == a && s[1] == b && s[2] == c && s[3] == d
    ensures s == [a, b, c, d]
  {
  }

  /** The scenario's four loop iterations, one window at a time. */
  lemma ScenarioSlots()
    ensures var vals := [10.0, 20.0, 10.0, 20.0];
      && BaseOffset(vals, 0, 4, 1.0) == 1.0
      && BaseOffset(vals, 1, 4, 1.0) == -0.5
      && BaseOffset(vals, 2, 4, 1.0) == 1.0
      && BaseOffset(vals, 3, 4, 1.0) == 0.0
  {
    var vals := [10.0, 20.0, 10.0, 20.0];
    var w0, w1, w2 := vals, [20.0, 10.0, 20.0], [10.0, 20.0];
    assert Window(vals, 0, 4) == w0 && Window(vals, 1, 4) == w1 && Window(vals, 2, 4) == w2;
    assert w0[1..] == w1 && w1[1..] == [10.0, 20.0] && w2[1..] == [20.0];
    assert Sum([20.0]) == 20.0;
    assert Sum(w2) == 30.0;
    assert Sum(w1) == 50.0;
    assert Sum(w0) == 60.0;
    assert Mean(w0) == 15.0 && Mean(w1) == 50.0 / 3.0 && Mean(w2) == 15.0;
    assert MaxAbsDev([20.0], 15.0) == 5.0;
    assert MaxAbsDev(w2, 15.0) == 5.0;
    assert MaxAbsDev([10.0, 20.0], 15.0) == 5.0;
    assert MaxAbsDev(w1[1..], 50.0 / 3.0) == 20.0 / 3.0;
    assert MaxAbsDev(w1, 50.0 / 3.0) == 20.0 / 3.0;
    assert MaxAbsDev(w0, 15.0) == 5.0;
    assert (1.0 / 5.0) * (15.0 - 10.0) == 1.0;
    assert (1.0 / (20.0 / 3.0)) * (50.0 / 3.0 - 20.0) == -0.5;
  }

  /** With a step that does not divide the bound, the final clamp yields the bound itself,
      which is not a step multiple: a bound of 1.5 and a step of 1.0 turn an offset of 1.5
      into 1.5 (rounding gives 2.0, clamping gives 1.5). */
  lemma ClampedBoundNotStepAligned()
    ensures Snap([1.5], 1.0, 1.5) == [1.5]
    ensures !IsStepMultiple(1.5, 1.0)
  {
    assert RoundHalfEven(1.5) == 2;
    assert Quantize(1.5, 1.0) == 2.0;
  }
}
