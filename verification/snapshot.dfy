/** `_async_update_data` and `_empty` of `coordinator.py`: roll the store, compute the
    offsets over both days' prices, split them back per day and pick the current slot.
    "Now" is given twice, as UTC epoch milliseconds (to find the current slot) and as
    the local date (to roll the store). */
module DataUpdate {
  import opened Optional
  import opened RealMath
  import opened Helpers
  import Engine
  import Scheduler
  import Config

  const HOUR_MS: int := 60 * 60 * 1000

  /** The data handed to the entities. `currentPrice` and `currencyUnit` are `None` when
      the key is absent. */
  datatype Snapshot = Snapshot(
    slotMs: Option<int>,
    currentOffset: real,
    currentPrice: Option<real>,
    currencyUnit: Option<string>,
    offsetsToday: seq<Point>,
    offsetsTomorrow: seq<Point>,
    pricesToday: seq<Point>,
    pricesTomorrow: seq<Point>)

  /** `_empty`: no slot length, a zero offset, no series. */
  function Empty(): (r: Snapshot)
    ensures r.slotMs.None? && r.currentOffset == 0.0 && r.currentPrice.None? && r.currencyUnit.None?
    ensures r.offsetsToday == [] && r.offsetsTomorrow == [] && r.pricesToday == [] && r.pricesTomorrow == []
  {
    Snapshot(None, 0.0, None, None, [], [], [], [])
  }

  /** `max(1, int(round(hours * 3600000 / slot_ms)))`: the horizon in slots, the nearest
      whole number of slots but at least one. */
  function HorizonSlots(hours: int, slotMs: int): (r: int)
    requires slotMs > 0
    ensures r >= 1
    ensures (hours * HOUR_MS) as real / slotMs as real >= 0.5 ==>
      Abs(r as real - (hours * HOUR_MS) as real / slotMs as real) <= 0.5
    ensures (hours * HOUR_MS) as real / slotMs as real < 0.5 ==> r == 1
  {
    MaxInt(1, RoundHalfEven((hours * HOUR_MS) as real / slotMs as real))
  }

  /** A slot holds the instant `now` (UTC milliseconds). */
  predicate Holds(p: Point, now: int)
  {
    p.startTs <= now < p.endTs
  }

  /** The index of the first slot at or after `from` holding `now`, if any. */
  function FirstHolding(prices: seq<Point>, now: int, from: nat): (r: Option<nat>)
    requires from <= |prices|
    ensures r.None? <==> forall i :: from <= i < |prices| ==> !Holds(prices[i], now)
    ensures r.Some? ==>
      && from <= r.value < |prices| && Holds(prices[r.value], now)
      && forall j :: from <= j < r.value ==> !Holds(prices[j], now)
    decreases |prices| - from
  {
    if from == |prices| then None
    else if Holds(prices[from], now) then Some(from)
    else FirstHolding(prices, now, from + 1)
  }

  /** The forecast rows of one day: each price slot carrying its offset as value. */
  function OffsetRows(prices: seq<Point>, offsets: seq<real>): (r: seq<Point>)
    requires |offsets| == |prices|
    ensures |r| == |prices|
    ensures forall i :: 0 <= i < |r| ==>
      r[i].startTs == prices[i].startTs && r[i].endTs == prices[i].endTs && r[i].value == offsets[i]
  {
    seq(|prices|, i requires 0 <= i < |prices| => Point(prices[i].startTs, prices[i].endTs, offsets[i]))
  }

  /** The engine parameters of a configuration. */
  function ParamsOf(s: Config.Settings): Engine.Params
  {
    Engine.Params(s.maxOffset, s.stepSize, s.smoothingSlots, s.nightCap)
  }

  /** `_async_update_data`: returns the rolled store and the snapshot. An empty store
      yields `_empty()`. Otherwise the offsets of both days are computed together over
      a horizon of `HorizonSlots` slots and split back: "today" rows get the first
      `|today|` offsets, "tomorrow" rows the rest; the current offset and price are
      those of the first slot holding `nowMs`, or 0 and none. */
  function UpdateData(st: Scheduler.Store, localDay: int, nowMs: int, s: Config.Settings,
                      units: map<string, string>, toLocal: int -> Engine.MsOfDay): (r: (Scheduler.Store, Snapshot))
    ensures r.0 == Scheduler.Roll(st, localDay)
    ensures |r.0.today| + |r.0.tomorrow| == 0 <==> r.1 == Empty()
    ensures |r.0.today| + |r.0.tomorrow| > 0 ==>
      var all := r.0.today + r.0.tomorrow;
      var offsets := Engine.ComputeOffsets(all, HorizonSlots(s.horizonHours, InferSlotMs(all)), ParamsOf(s), toLocal);
      && r.1.slotMs == Some(InferSlotMs(all))
      && r.1.pricesToday == r.0.today && r.1.pricesTomorrow == r.0.tomorrow
      && r.1.offsetsToday == OffsetRows(r.0.today, offsets[..|r.0.today|])
      && r.1.offsetsTomorrow == OffsetRows(r.0.tomorrow, offsets[|r.0.today|..])
      && r.1.currencyUnit == Some(if s.currency in units then units[s.currency] else s.currency)
      && (match FirstHolding(all, nowMs, 0)
          case None => r.1.currentOffset == 0.0 && r.1.currentPrice.None?
          case Some(i) => r.1.currentOffset == offsets[i] && r.1.currentPrice == Some(all[i].value))
  {
    var rolled := Scheduler.Roll(st, localDay);
    var all := rolled.today + rolled.tomorrow;
    if |all| == 0 then (rolled, Empty())
    else
      var slot := InferSlotMs(all);
      var offsets := Engine.ComputeOffsets(all, HorizonSlots(s.horizonHours, slot), ParamsOf(s), toLocal);
      var n := |rolled.today|;
      var (current, price) := match FirstHolding(all, nowMs, 0)
        case None => (0.0, None)
        case Some(i) => (offsets[i], Some(all[i].value));
      (rolled, Snapshot(Some(slot), current, price,
                        Some(if s.currency in units then units[s.currency] else s.currency),
                        OffsetRows(rolled.today, offsets[..n]),
                        OffsetRows(rolled.tomorrow, offsets[n..]),
                        rolled.today, rolled.tomorrow))
  }

  /** The snapshot's rows cover exactly the stored slots of each day, every offset lies
      within the configured bound, and so does the current offset. */
  lemma SnapshotShape(st: Scheduler.Store, localDay: int, nowMs: int, s: Config.Settings,
                      units: map<string, string>, toLocal: int -> Engine.MsOfDay)
    requires s.maxOffset > 0.0
    ensures var (rolled, snap) := UpdateData(st, localDay, nowMs, s, units, toLocal);
      && |snap.offsetsToday| == |snap.pricesToday| && |snap.offsetsTomorrow| == |snap.pricesTomorrow|
      && (forall i :: 0 <= i < |snap.offsetsToday| ==>
            snap.offsetsToday[i].startTs == rolled.today[i].startTs
            && -s.maxOffset <= snap.offsetsToday[i].value <= s.maxOffset)
      && (forall i :: 0 <= i < |snap.offsetsTomorrow| ==>
            snap.offsetsTomorrow[i].startTs == rolled.tomorrow[i].startTs
            && -s.maxOffset <= snap.offsetsTomorrow[i].value <= s.maxOffset)
      && -s.maxOffset <= snap.currentOffset <= s.maxOffset
  {
    var rolled := Scheduler.Roll(st, localDay);
    var all := rolled.today + rolled.tomorrow;
    if |all| > 0 {
      var offsets := Engine.ComputeOffsets(all, HorizonSlots(s.horizonHours, InferSlotMs(all)), ParamsOf(s), toLocal);
      var n := |rolled.today|;
      SliceBounded(offsets, 0, n, s.maxOffset);
      SliceBounded(offsets, n, |offsets|, s.maxOffset);
    }
  }

  /** A slice of a bounded sequence is bounded. */
  lemma SliceBounded(s: seq<real>, i: int, j: int, m: real)
    requires 0 <= i <= j <= |s| && Engine.Bounded(s, m)
    ensures Engine.Bounded(s[i..j], m)
  {
    assert forall k :: 0 <= k < j - i ==> s[i..j][k] == s[i + k];
  }

  /** With no slot holding `now` the current offset is zero and no price is reported. */
  lemma NoCurrentSlot(st: Scheduler.Store, localDay: int, nowMs: int, s: Config.Settings,
                      units: map<string, string>, toLocal: int -> Engine.MsOfDay)
    requires var rolled := Scheduler.Roll(st, localDay);
      forall p :: p in rolled.today + rolled.tomorrow ==> !Holds(p, nowMs)
    ensures var snap := UpdateData(st, localDay, nowMs, s, units, toLocal).1;
      snap.currentOffset == 0.0 && snap.currentPrice.None?
  {
    var rolled := Scheduler.Roll(st, localDay);
    var all := rolled.today + rolled.tomorrow;
    assert forall i :: 0 <= i < |all| ==> all[i] in all;
  }
}
