# energy_balancer in Dafny

A model of the core of the `energy_balancer` Home Assistant integration. The integration
turns a day-ahead electricity price forecast (Nord Pool) into a bounded offset per price
slot. A thermostat can then lean toward cheap hours and away from expensive ones. The
model covers four parts:

- **Offset engine** (`engine.dfy`, `helpers.dfy`). For each slot it takes the forward
  window of `horizon_slots` prices. It scales the slot's distance from the window mean so
  that the window's most extreme slot would reach `max_offset`, then clamps. Next come, in
  this order: a centred moving average, a clamp, step quantisation with a clamp, the
  optional night cap with up to three rebalancing passes, and a final quantisation with a
  clamp.
- **Point normalisation** (`normalize.dfy`). Raw price records become sorted `Point`s.
  This covers the `value`/`price` and `start_ts`/`start` key choices and the
  seconds-or-milliseconds epoch heuristic.
- **Price store and fetch scheduler** (`scheduler.dfy`). The "today"/"tomorrow" series
  with their dates, and the rollover. A fetch is routed into the series its date belongs
  to. The scheduler holds the single shared retry slot, the 13:30 and 00:00:10 anchors,
  `async_stop`, and the plan of attempts that `async_refresh_prices` makes.
- **Snapshot and configuration** (`snapshot.dfy`, `config.dfy`, `select.py` in
  `select.dfy`, the tables of `const.py` in `const.dfy`). The snapshot assembly takes the
  empty case, the split of offsets per day and the current slot into account. The
  configuration part covers the area/currency fallbacks, the smoothing window and the
  step-size selector.

Floats are `real`. Python's `round` is exact round-half-to-even (`RealMath.RoundHalfEven`).
`int()` truncates toward zero (`RealMath.Trunc`). `statistics.mean` is `Sum / |s|`.

Several things the code does are easy to get wrong when reading it casually. Each is
proved here:

- The forward window shrinks at the end of the data. So the prices 10, 20, 10, 20 with a
  four-slot horizon give offsets 1, −0.5, 1, 0, not an alternating ±1
  (`Engine.FourSlotScenario`).
- The final clamp can leave `±max_offset`, which is not a multiple of the step when the
  step does not divide the bound (`Engine.ClampedBoundNotStepAligned`). Every final offset
  is therefore a step multiple *or* one of the two bounds.
- The 13:40 deadline for tomorrow's prices only comes into play at or after 13:30. Before
  13:30, `async_refresh_prices` makes one attempt, for today (`Scheduler.RefreshPlan`).
- There is one retry slot for both series. At start-up after 13:30, if every attempt
  fails, the pending "tomorrow" retry is replaced by the second "today" retry
  (`Scheduler.StartupLosesTomorrowRetry`, `Scheduler.TomorrowRetryReplacesToday`).
- A start-up refresh in the last 5 seconds of a day computes "today" and "tomorrow"
  before its 5-second pause and routes the fetched points after it. So tomorrow's prices
  land in "today", and the previous day's prices land in "tomorrow", where no later
  rollover removes them (`Scheduler.StartupAcrossMidnight`). A start-up that stays within
  the day stores both series correctly (`Scheduler.RefreshSucceeds`).
- `coordinator.py` imports `CONF_NIGHT_CAP`, `DEFAULT_NIGHT_CAP` and `CURRENCY_UNITS`,
  but the `const.py` in this repository does not define them. The model takes the night
  cap default to be off (`Const.DEFAULT_NIGHT_CAP`). It takes the currency-unit table as a
  parameter of `DataUpdate.UpdateData`.

## Model

| member | source | states |
|---|---|---|
| Helpers.InferSlotMs | custom_components/energy_balancer/helpers.py:106-111 | the slot length is always strictly between 0 and 6 h: the first gap when that gap is in range, otherwise 15 minutes |
| Helpers.Clamp | custom_components/energy_balancer/helpers.py:126-127 | with `lo <= hi` the result lies in `[lo, hi]`; it is `x` when `x` is in range, and the nearer bound otherwise |
| Helpers.ClampIdempotent | custom_components/energy_balancer/helpers.py:126-127 | clamping an already clamped value changes nothing |
| Helpers.Quantize | custom_components/energy_balancer/helpers.py:130-133 | identity for a non-positive step; otherwise an integer multiple of the step within half a step of `x`, with the sign of `x` kept |
| Helpers.QuantizeFacts | custom_components/energy_balancer/helpers.py:133 | `k * step` with `k` the half-even rounding of `x / step` is a step multiple within `step / 2` of `x`, with the sign of `x` |
| Helpers.WindowFacts | custom_components/energy_balancer/helpers.py:118-121 | the truncated smoothing window contains its own slot, stays inside the sequence and has at most `2 * half + 1` elements |
| Helpers.MovingAverage | custom_components/energy_balancer/helpers.py:114-123 | the length is kept, and a window of at most 1 returns the input unchanged |
| Helpers.MovingAverageWindow | custom_components/energy_balancer/helpers.py:117-123 | each smoothed value is the mean of the truncated window `[max(0, i-half), min(n, i+half+1))` around its slot |
| Helpers.MovingAverageBounded | custom_components/energy_balancer/helpers.py:117-123 | smoothing never leaves any interval that holds all inputs |
| Helpers.MovingAverageConstant | custom_components/energy_balancer/helpers.py:114-123 | a constant series stays constant under smoothing |
| Normalize.Strip | custom_components/energy_balancer/helpers.py:59-61 | the result is a slice of the input with only whitespace cut from either end, no whitespace is left at either end, and it is empty exactly when the input is all whitespace |
| Normalize.EpochToMs | custom_components/energy_balancer/helpers.py:51-55 | a number above 10,000,000,000 is truncated as milliseconds; any other is multiplied by 1000 and truncated toward zero |
| Normalize.EpochSecondsScaled | custom_components/energy_balancer/helpers.py:53-55 | whole epoch seconds up to the threshold become exactly `1000 *` their value |
| Normalize.EpochMillisKept | custom_components/energy_balancer/helpers.py:53-54 | whole epoch milliseconds above the threshold are kept unchanged |
| Normalize.ToTsMs | custom_components/energy_balancer/helpers.py:41-67 | `None` and unknown types give no timestamp, a date-time gives its UTC milliseconds, and numbers (booleans included) go through the epoch heuristic; a blank string gives none, and any other string gives what the ISO-8601 parser makes of its stripped text |
| Normalize.RecordToPoint | custom_components/energy_balancer/helpers.py:74-100 | a record is dropped if and only if its value is `None`, either timestamp is missing or unparseable, or the value does not convert to float; a kept record's point carries exactly those converted fields |
| Normalize.StartTsHasPrecedence | custom_components/energy_balancer/helpers.py:79-85 | a present, non-`None`, unparseable `start_ts` drops the record with no fallback to `start` |
| Normalize.NullValueHasPrecedence | custom_components/energy_balancer/helpers.py:75-77 | a `value` key holding `None` drops the record even when `price` is usable |
| Normalize.Collect | custom_components/energy_balancer/helpers.py:72-100 | a point is collected if and only if some record yields it, and there are never more points than records |
| Normalize.CollectOne | custom_components/energy_balancer/helpers.py:72-100 | a single record contributes exactly its point, or nothing when it is dropped |
| Normalize.CollectAppend | custom_components/energy_balancer/helpers.py:72-100 | collecting the concatenation of two record lists is collecting each in turn, so input order and repetitions are kept |
| Normalize.Dicts | custom_components/energy_balancer/helpers.py:26-27 | a record is kept if and only if it is a dictionary element of the list, and the result is never longer than the list |
| Normalize.DictsOne | custom_components/energy_balancer/helpers.py:26-27 | a single item contributes its record when it is a dictionary and nothing otherwise |
| Normalize.DictsAppend | custom_components/energy_balancer/helpers.py:26-27 | filtering the concatenation of two lists is filtering each in turn, so order and repetitions are kept |
| Normalize.ParseRaw | custom_components/energy_balancer/helpers.py:22-38 | `None`, other types and blank strings give no records; a list gives its dictionaries in order; a non-blank string gives the dictionaries of what the stripped text decodes to, or none when it does not decode to a list |
| Normalize.Insert | custom_components/energy_balancer/helpers.py:102 | inserting adds exactly one occurrence of the point and keeps a sorted sequence sorted |
| Normalize.InsertKeepsOrder | custom_components/energy_balancer/helpers.py:102 | inserting below the last element and then re-appending it keeps a sorted sequence sorted |
| Normalize.SortByStart | custom_components/energy_balancer/helpers.py:102 | the result is sorted ascending by start time and is a permutation of the input |
| Normalize.NormalizeRawPoints | custom_components/energy_balancer/helpers.py:70-103 | the points are sorted by start time; as a multiset they are exactly the points of the usable records; a point is present if and only if some parsed record yields it |
| Const.VatRate | custom_components/energy_balancer/const.py:52-75 | an area's rate is its table entry, or 0 when it has none, and always lies in `[0, 1)` |
| Const.VatTableFacts | custom_components/energy_balancer/const.py:52-75 | every taxed area is a known area, and every rate lies in `[0, 1)` |
| Const.UntaxedAreas | custom_components/energy_balancer/const.py:16-41 | `SYS` and `TEL` are known areas with no VAT entry, so they are charged rate 0 |
| Const.DefaultsValid | custom_components/energy_balancer/const.py:44-50 | the fallback area and currency are accepted values; the smoothing level is in 0..10, the horizon at least 1, and the offset bound and step positive |
| Config.Upper | custom_components/energy_balancer/coordinator.py:74-75 | upper-casing keeps the length, maps each ASCII lower-case letter to its capital and leaves every other character alone |
| Config.SmoothingSlots | custom_components/energy_balancer/coordinator.py:92-97 | the window is odd and reaches `max(0, level)` slots to each side; it is 1 exactly when the level is at most 0, and at most 21 for levels 0..10 |
| Config.ResolveArea | custom_components/energy_balancer/coordinator.py:74-81 | the area is always an accepted one: the upper-cased configured area (or default) when accepted, otherwise the default |
| Config.ResolveCurrency | custom_components/energy_balancer/coordinator.py:75-82 | the same fallback rule for the currency |
| Config.Pick | custom_components/energy_balancer/coordinator.py:86-90 | an option overrides the data value, which overrides the default |
| Config.ReloadFromEntry | custom_components/energy_balancer/coordinator.py:72-97 | an entry without a price entity yields nothing (the source raises); otherwise a well-formed configuration whose area, currency and VAT flag come from `data` and whose tunables prefer `options` over `data` over the defaults |
| Config.ReloadDefaults | custom_components/energy_balancer/coordinator.py:72-97 | an entry holding only a price entity gets every default, with a 3-slot smoothing window |
| Config.LowerCaseAreaAccepted | custom_components/energy_balancer/coordinator.py:74-78 | a lower-case area code such as `se3` is accepted after upper-casing |
| Config.SetSmoothingLevel | custom_components/energy_balancer/coordinator.py:455-461 | the level and its window change together, nothing else changes, and well-formedness is kept |
| Config.EffectiveVatRate | custom_components/energy_balancer/coordinator.py:417 | the rate is the area's VAT rate when VAT is included and 0 otherwise, always in `[0, 1)` |
| StepSelect.FormatStepSize | custom_components/energy_balancer/select.py:44-49 | the display is always one of the three options: "1.0" exactly from 0.75, "0.5" exactly on `[0.3, 0.75)`, "0.1" exactly below 0.3 |
| StepSelect.OptionValue | custom_components/energy_balancer/select.py:35 | every option parses to a positive step that is displayed as the same option |
| StepSelect.FormatMonotone | custom_components/energy_balancer/select.py:44-49 | a larger step never displays a smaller option |
| StepSelect.FormatRoundTrip | custom_components/energy_balancer/select.py:44-49 | display-then-parse gives back `v` if and only if `v` is 0.1, 0.5 or 1.0 |
| StepSelect.SelectOption | custom_components/energy_balancer/select.py:32-41 | an unknown option changes nothing; a known one is stored as `float(option)` in the entry's options and in the configuration, is what is displayed next, and nothing else changes |
| StepSelect.SelectionSurvivesReload | custom_components/energy_balancer/select.py:37-41 | after selecting an option, reloading the entry yields the selected step |
| Engine.NightIsSixAndAHalfHours | custom_components/energy_balancer/coordinator.py:530-533 | a local time is night if and only if it lies within the 6.5 hours after 22:30, wrapping over midnight |
| Engine.NightMask | custom_components/energy_balancer/coordinator.py:505 | one flag per slot, set exactly when the slot's local start time is night |
| Engine.Window | custom_components/energy_balancer/coordinator.py:181 | the forward window holds exactly the prices from the slot onward, `min(n - i, horizon)` of them and never fewer than one |
| Engine.MaxAbsDev | custom_components/energy_balancer/coordinator.py:189-190 | the largest distance from the mean bounds every window element and is reached by one of them |
| Engine.BaseOffset | custom_components/energy_balancer/coordinator.py:180-199 | the base offset lies in `[-max, max]`; it is 0 for a window of fewer than two slots; it is negative above the window mean, positive below it and 0 at it; the window's most extreme slot reaches `±max` |
| Engine.ScaledOffset | custom_components/energy_balancer/coordinator.py:192-199 | scaling by `max / max_abs` and clamping keeps the sign of the deviation, stays within the bound and reaches it for the largest deviation |
| Engine.ScaleFacts | custom_components/energy_balancer/coordinator.py:196-197 | `(m / big) * d` with `abs(d) <= big` stays in `[-m, m]`, keeps the sign of `d` and reaches `m` in magnitude when `abs(d) == big` |
| Engine.FlatWindowIsZero | custom_components/energy_balancer/coordinator.py:186-194 | a window whose prices are all equal gives base offset 0 |
| Engine.LastSlotIsZero | custom_components/energy_balancer/coordinator.py:181-184 | the last slot's window holds only itself, so its base offset is 0 |
| Engine.BaseOffsets | custom_components/energy_balancer/coordinator.py:177-199 | one base offset per slot, each the loop body's result for that slot |
| Engine.ClampAll | custom_components/energy_balancer/coordinator.py:205 | the result is bounded by `m`, and each element is its input clamped |
| Engine.QuantizeAll | custom_components/energy_balancer/coordinator.py:209 | the length is kept and each element is quantised |
| Engine.Snap | custom_components/energy_balancer/coordinator.py:208-210 | with a positive step every element is bounded, is a step multiple or one of the two bounds, and an element already within the bounds moves by at most half a step; otherwise nothing changes; non-positive elements stay non-positive |
| Engine.CountAdjustable | custom_components/energy_balancer/coordinator.py:517-521 | the count is 0 if and only if no slot is adjustable |
| Engine.RebalancePass | custom_components/energy_balancer/coordinator.py:524-526 | non-adjustable slots keep their value; each adjustable slot becomes its offset minus the correction, clamped to `[-max, max]` |
| Engine.Rebalance | custom_components/energy_balancer/coordinator.py:513-526 | night slots and slots at or outside the bounds never move; bounded offsets stay bounded; a total already within the neutrality tolerance is left as it is; otherwise the total moves toward zero and never changes sign |
| Engine.PassMovesTowardZero | custom_components/energy_balancer/coordinator.py:512-526 | one pass with the even share `total / count` as correction moves the total toward zero and never past it |
| Engine.PassLowers | custom_components/energy_balancer/coordinator.py:524-526 | a non-negative correction lowers the total by at most the correction per adjustable slot, and never raises it, because a clamp only cuts a correction short |
| Engine.PassRaises | custom_components/energy_balancer/coordinator.py:524-526 | a non-positive correction raises the total by at most its size per adjustable slot, and never lowers it |
| Engine.SumBetween | custom_components/energy_balancer/coordinator.py:524-526 | when every adjustable slot drops by between `b` and `a` and no other slot moves, the total drops by between `b` and `a` per adjustable slot |
| Engine.CapNight | custom_components/energy_balancer/coordinator.py:508-510 | every positive night slot becomes 0 and every other slot is kept |
| Engine.ApplyNightCap | custom_components/energy_balancer/coordinator.py:496-528 | identity when the cap is off or there are no offsets; otherwise each night slot ends as `min(offset, 0)`, non-night slots at or beyond the bounds are untouched, bounded offsets stay bounded, and the final total lies between zero and the total after capping |
| Engine.PassSum | custom_components/energy_balancer/coordinator.py:524-526 | a pass whose corrections are not cut by the bounds lowers the total by the correction once per adjustable slot |
| Engine.PassNeutralizes | custom_components/energy_balancer/coordinator.py:512-526 | if no adjustable slot hits a bound, one pass brings the total to exactly zero (energy neutrality) |
| Engine.ComputeOffsets | custom_components/energy_balancer/coordinator.py:169-219 | one offset per slot; all zero when `max_offset <= 0`; otherwise bounded by `max_offset`; no night slot positive when the cap is on; with a positive step, each a step multiple or one of the two bounds |
| Engine.SmoothingClampIsInert | custom_components/energy_balancer/coordinator.py:201-205 | the base offsets are already bounded, so the clamp after smoothing changes nothing |
| Engine.PlainPipeline | custom_components/energy_balancer/coordinator.py:169-219 | without smoothing, step or night cap, the final offsets are exactly the base offsets |
| Engine.FourSlotScenario | custom_components/energy_balancer/coordinator.py:169-219 | hourly prices 10, 20, 10, 20 with a 4-slot horizon, bound 1 and no smoothing, step or cap give 1, −0.5, 1, 0 |
| Engine.ScenarioBase | custom_components/energy_balancer/coordinator.py:180-199 | the base offsets of 10, 20, 10, 20 over a 4-slot horizon are 1, −0.5, 1, 0 |
| Engine.ScenarioSlots | custom_components/energy_balancer/coordinator.py:180-199 | slot by slot, the shrinking forward windows give 1, −0.5, 1 and 0 |
| Engine.ClampedBoundNotStepAligned | custom_components/energy_balancer/coordinator.py:216-218 | with bound 1.5 and step 1, an offset of 1.5 ends as 1.5, which is not a step multiple |
| Scheduler.SecOfDay | custom_components/energy_balancer/coordinator.py:236 | the time of day lies within one day and, with the date, recovers the instant |
| Scheduler.At | custom_components/energy_balancer/coordinator.py:256 | combining a date with a time of day gives an instant on that date at that time |
| Scheduler.Roll | custom_components/energy_balancer/coordinator.py:262-270 | nothing changes unless "tomorrow" is dated today and "today" is not; then "today" takes over the series and date, and "tomorrow" is emptied and undated; afterwards "today" is dated today exactly when either series was |
| Scheduler.RollIdempotent | custom_components/energy_balancer/coordinator.py:262-270 | rolling twice on the same day is rolling once |
| Scheduler.Round2 | custom_components/energy_balancer/coordinator.py:422 | the result is a whole number of hundredths within 0.005 of the input |
| Scheduler.Round2Idempotent | custom_components/energy_balancer/coordinator.py:422 | rounding a rounded price again changes nothing |
| Scheduler.ApplyVat | custom_components/energy_balancer/coordinator.py:416-425 | every point keeps its slot, and its price becomes the per-kWh price with VAT, within a hundredth's half |
| Scheduler.ApplyVatKeepsOrder | custom_components/energy_balancer/coordinator.py:418-425 | scaling prices keeps the series sorted by start |
| Scheduler.Fetched | custom_components/energy_balancer/coordinator.py:414-425 | a failed call yields nothing; otherwise every normalised point, in order, keeps its slot and gets the per-kWh price with VAT rounded to hundredths (within 0.005 of the exact value); the result is sorted by start |
| Scheduler.FetchForDate | custom_components/energy_balancer/coordinator.py:426-437 | success holds exactly when the fetched points are non-empty; failure leaves the store unchanged; on success the points wholly replace "today" when the asked date is the current date, else "tomorrow", together with that series' date |
| Scheduler.FetchOutcome | custom_components/energy_balancer/coordinator.py:411-437 | the whole fetch succeeds exactly when the call went through and the area's value has a usable record, and it then stores a non-empty series sorted by start for the asked date |
| Scheduler.FetchRouting | custom_components/energy_balancer/coordinator.py:430-435 | a fetch for any date other than the current one never touches "today" and can only record the asked date |
| Scheduler.LateRetryLandsInTomorrow | custom_components/energy_balancer/coordinator.py:429-435 | a fetch that succeeds for an earlier date (a "today" retry firing after midnight) lands in "tomorrow", where no rollover on the current or a later date promotes it |
| Scheduler.AttemptFetch | custom_components/energy_balancer/coordinator.py:349-381 | success clears the retry slot and requests a refresh; failure before the deadline puts one retry with the same arguments at `now + interval` into the single slot, whatever was there; failure at or after the deadline changes nothing |
| Scheduler.AttemptRouting | custom_components/energy_balancer/coordinator.py:356-374 | an attempt for a date other than the current one never touches "today", can only date "tomorrow" as the asked date, and any retry it newly arms repeats its own call |
| Scheduler.ScheduleRetry | custom_components/energy_balancer/coordinator.py:323-337 | the slot afterwards holds exactly the new pending retry, and nothing else changes |
| Scheduler.FireRetry | custom_components/energy_balancer/coordinator.py:339-347 | a firing retry repeats its fetch in full: the store becomes that fetch's result and a refresh is requested exactly when it succeeds; a retry is pending afterwards exactly when the fetch failed before the deadline, and it repeats the same call one interval later |
| Scheduler.RetryProgress | custom_components/energy_balancer/coordinator.py:364-374 | each retry that re-arms fires at least one interval later and less than one interval after the deadline, so a chain of retries ends |
| Scheduler.TomorrowRetryReplacesToday | custom_components/energy_balancer/coordinator.py:331-337 | a failing "tomorrow" attempt before its deadline replaces a pending "today" retry |
| Scheduler.SuccessCancelsAnyRetry | custom_components/energy_balancer/coordinator.py:357-360 | a successful attempt for either series cancels whichever retry was pending |
| Scheduler.NextAnchor | custom_components/energy_balancer/coordinator.py:275-287 | the anchor is the first instant strictly after now with the given time of day: at most one day ahead, and no earlier instant after now has that time |
| Scheduler.ScheduleDaily | custom_components/energy_balancer/coordinator.py:289-294 | the daily handle is replaced by one at the next 13:30, within a day, and nothing else changes |
| Scheduler.ScheduleMidnight | custom_components/energy_balancer/coordinator.py:296-301 | the midnight handle is replaced by one at the next 00:00:10, within a day, and nothing else changes |
| Scheduler.HandleDaily | custom_components/energy_balancer/coordinator.py:303-308 | the 13:30 handler never touches "today" and re-arms the daily anchor; fetched points become "tomorrow", dated the next day, cancel any retry and request a refresh; with no points before 13:40 one retry a minute later, deadline 13:40, replaces whatever was pending; with no points from 13:40 on store and retry slot are kept |
| Scheduler.HandleMidnight | custom_components/energy_balancer/coordinator.py:310-321 | the rollover handler rolls the store; when "today" is still filled it fetches nothing; when it is empty fetched points become today's and cancel any retry, and no points arm a retry in 10 s, deadline one minute ahead; it always requests a refresh and re-arms the midnight anchor |
| Scheduler.Stop | custom_components/energy_balancer/coordinator.py:475-494 | all three handles are cleared, no retry is pending, and the store is kept |
| Scheduler.RefreshPlan | custom_components/energy_balancer/coordinator.py:226-260 | the first step is a "today" attempt: 10 s retries for 2 minutes at start-up, otherwise 1-minute retries for one minute; before 13:30 that is the whole plan; from 13:30 at start-up a 5 s pause, a "tomorrow" attempt and the same "today" attempt again follow; otherwise a "tomorrow" attempt until 13:40 follows, or a plain fetch once 13:40 has passed |
| Scheduler.RunPlan | custom_components/energy_balancer/coordinator.py:226-260 | carrying out a plan keeps both anchors and never lowers the refresh count; each series ends unchanged or as the points of one of its fetching steps, and each date unchanged or as a date some step targets; without attempts the retry slot is kept; when every attempt gets points no retry is left; a plan of pauses changes nothing |
| Scheduler.StartupLosesTomorrowRetry | custom_components/energy_balancer/coordinator.py:236-253 | at start-up after 13:30 with every fetch failing, the only pending retry is the second "today" one; no timer retries tomorrow's prices |
| Scheduler.StartupRun | custom_components/energy_balancer/coordinator.py:236-253 | an afternoon start-up is a "today" attempt, a 5 s pause, a "tomorrow" attempt and the same "today" attempt again |
| Scheduler.RefreshSucceeds | custom_components/energy_balancer/coordinator.py:226-260 | when every fetch gets points (and a start-up pause stays within the day) "today" holds the last "today" fetch under today's date, from 13:30 on "tomorrow" holds the tomorrow fetch under the next date, before 13:30 "tomorrow" is unchanged, and no retry is pending |
| Scheduler.MorningRefreshSucceeds | custom_components/energy_balancer/coordinator.py:226-235 | before 13:30 a successful refresh fills and dates "today" only and leaves no retry |
| Scheduler.StartupRefreshSucceeds | custom_components/energy_balancer/coordinator.py:236-253 | a successful afternoon start-up fills "tomorrow" with the tomorrow fetch and "today" with the second today fetch, both correctly dated, with no retry left |
| Scheduler.AfternoonRefreshSucceeds | custom_components/energy_balancer/coordinator.py:236-260 | a successful regular afternoon refresh fills and dates both series, whether tomorrow comes by an attempt or a plain fetch, with no retry left |
| Scheduler.StartupAcrossMidnight | custom_components/energy_balancer/coordinator.py:226-253 | a start-up in the last 5 s of a day puts tomorrow's prices into "today" and the previous day's second fetch into "tomorrow" under the previous date, where no later rollover removes it |
| Scheduler.Start | custom_components/energy_balancer/coordinator.py:221-224 | start-up arms the 13:30 and 00:00:10 anchors and runs the start-up refresh: the refresh count never drops, each series ends unchanged or as one of the refresh's fetched point lists, and no retry is left when every fetch gets points |
| Scheduler.StartSucceeds | custom_components/energy_balancer/coordinator.py:221-253 | a start-up whose fetches all get points, with the pause ending on the same date, arms both anchors, stores today's and (from 13:30) tomorrow's prices under their dates, and leaves no retry |
| DataUpdate.Empty | custom_components/energy_balancer/coordinator.py:159-167 | the empty snapshot has no slot length, offset 0, no price, no unit and no series |
| DataUpdate.HorizonSlots | custom_components/energy_balancer/coordinator.py:112 | the horizon in slots is at least 1 and, when the exact ratio is at least 0.5, within half a slot of it |
| DataUpdate.FirstHolding | custom_components/energy_balancer/coordinator.py:124-128 | the index found is the first slot whose `[start, end)` holds now, and there is none exactly when no slot holds it |
| DataUpdate.OffsetRows | custom_components/energy_balancer/coordinator.py:131-146 | one row per price slot, with the slot's start and end and its offset as value |
| DataUpdate.UpdateData | custom_components/energy_balancer/coordinator.py:100-157 | the store is rolled; an empty store gives exactly the empty snapshot; otherwise the offsets of both days are computed together and split at the length of "today", and the current offset and price are those of the first slot holding now, or 0 and none |
| DataUpdate.SnapshotShape | custom_components/energy_balancer/coordinator.py:114-146 | each day's offset rows match that day's slots one for one, and every offset, the current one included, is within the configured bound |
| DataUpdate.NoCurrentSlot | custom_components/energy_balancer/coordinator.py:120-128 | when no slot holds now, the current offset is 0 and no price is reported |

## Left out

- Home Assistant plumbing is not modelled: the entity classes, the config flow, the
  `DataUpdateCoordinator` base, the entity registry and the `nordpool` service call
  (`coordinator.py:384-415`, `439-449`). The service becomes an oracle argument. It is
  `None` when the call cannot be made or fails, and otherwise the raw value under the
  area's key. `Scheduler.Fetched` turns that response into points. It takes the VAT rate
  as an argument, which the caller sets to `Config.EffectiveVatRate` (the area's rate
  when VAT is included, else 0). The store and timer
  transitions take those points as their argument, and `Scheduler.FetchOutcome` connects
  the two halves.
- async/await and `async_track_point_in_time` are not modelled. Timers are fields holding
  their firing instants. Cancelling a timer clears its field. A handler runs
  instantaneously at the `now` it is given. In a refresh plan, only the 5-second pause
  advances the clock.
- Time-zone conversion and DST are not modelled. The engine gets a `toLocal` oracle from
  UTC milliseconds to local milliseconds of day. The scheduler runs on a line of local
  seconds, and sub-second parts of "now" are dropped. That never changes a comparison
  with 13:30, since the threshold is a whole second. It does change one with 13:40. At
  13:40:00.x the source has `now_local > deadline` and makes a plain fetch
  (`coordinator.py:256-258`). The model sees 13:40:00 and makes an attempt whose deadline
  has been reached. Both store the same points, but a successful attempt also clears the
  retry slot and requests a refresh.
- JSON decoding, ISO-8601 parsing and `float()` of a string are oracle functions
  (`Normalize.Parsers`).
- IEEE-754 floats are not modelled. Reals are used, so the sums of the rebalancing and
  the 2-decimal VAT rounding are exact.
- Logging of a fetch that gave up (`coordinator.py:376-380`) is not modelled.
- The setters other than the smoothing level (`async_set_max_offset`, `_step_size`,
  `_horizon_hours`, `_night_cap`) only assign a field and refresh. The number-entity
  slider ranges are UI limits.
- Normalize.Strip: only ASCII whitespace is stripped. Python's `str.strip()` also removes
  Unicode spaces.
- Config.Upper: only ASCII letters are upper-cased. Python's `str.upper()` covers all of
  Unicode.
- Normalize.SortByStart: stability (equal starts keep their input order) is not stated.
  Only sortedness and permutation are.
- Engine.ApplyNightCap: energy neutrality of the whole rebalancing is not stated. What is
  proved is that the total moves toward zero without crossing it (`Engine.Rebalance`), and
  that a single unclipped pass reaches exactly zero (`Engine.PassNeutralizes`). Clipped
  corrections and the three-pass limit mean the code need not reach zero.
- Scheduler.RunPlan: the plan is carried out with one list of fetched points per step,
  fixed in advance, rather than with a service whose answer depends on when it is called.
