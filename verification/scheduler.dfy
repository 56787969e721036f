/** The price store and the fetch/retry scheduler of `coordinator.py`.

    Time is one integer line of LOCAL (Europe/Stockholm) seconds: the local date of an
    instant `t` is `Day(t)` and its time of day is `SecOfDay(t)`. A deadline given as a
    local datetime is compared with "now" on the same line. The price service is an
    oracle: `None` when the call cannot be made or fails (no service, no entry, an
    exception, a non-dictionary response), otherwise the raw value found under the
    area's key; `Fetched` turns that into the points a fetch yields, and the store and
    timer transitions take those points as their input. The three timer handles are
    explicit fields of the state. */
module Scheduler {
  import opened Optional
  import opened RealMath
  import opened Helpers
  import Normalize

  const DAY_S: int := 24 * 60 * 60
  /** Day-ahead prices are released at 13:30 local time ... */
  const RELEASE_S: int := 13 * 60 * 60 + 30 * 60
  /** ... and fetching them is retried until 13:40. */
  const RELEASE_DEADLINE_S: int := 13 * 60 * 60 + 40 * 60
  /** The rollover runs at 00:00:10 local time. */
  const MIDNIGHT_ROLL_S: int := 10
  /** Retry interval of the regular attempts, in seconds. */
  const REGULAR_INTERVAL_S: int := 60
  /** Retry interval of the start-up and after-midnight attempts, in seconds. */
  const FAST_INTERVAL_S: int := 10
  /** How long the start-up attempts keep retrying, in seconds. */
  const STARTUP_WINDOW_S: int := 2 * 60
  /** How long the regular "today" attempt keeps retrying, in seconds. */
  const REGULAR_WINDOW_S: int := 60
  /** The pause before the start-up "tomorrow" attempt, in seconds. */
  const STARTUP_PAUSE_S: int := 5

  /** The local date of an instant, as a day number. */
  function Day(t: int): int
  {
    t / DAY_S
  }

  /** The local time of day of an instant, in seconds after midnight. */
  function SecOfDay(t: int): (r: int)
    ensures 0 <= r < DAY_S
    ensures t == Day(t) * DAY_S + r
  {
    t % DAY_S
  }

  /** `datetime.combine(day, time)`: the instant of a time of day on a given date. */
  function At(day: int, sec: int): (r: int)
    requires 0 <= sec < DAY_S
    ensures Day(r) == day && SecOfDay(r) == sec
  {
    day * DAY_S + sec
  }

  // ------------------------------------------------------------------ state

  /** Which series a retry was scheduled for (used only for the error message). */
  datatype Label = Today | Tomorrow

  /** The arguments a retry callback is bound to. */
  datatype RetryCall = RetryCall(target: int, deadline: int, series: Label, interval: int)

  /** The retry handle: when it fires, what it calls, and whether it is still pending
      (a handle that has fired stays in the slot until it is replaced or cleared). */
  datatype RetryTimer = RetryTimer(fireAt: int, call: RetryCall, pending: bool)

  /** The two price series and the local dates they belong to. */
  datatype Store = Store(today: seq<Point>, tomorrow: seq<Point>, todayDate: Option<int>, tomorrowDate: Option<int>)

  /** The coordinator's store, its three timer slots (`_daily_unsub`, `_midnight_unsub`,
      `_retry_unsub`; the two anchors hold their firing instants) and the number of
      refreshes it has requested from its listeners. */
  datatype State = State(store: Store, daily: Option<int>, midnight: Option<int>,
                         retry: Option<RetryTimer>, refreshes: nat)

  /** A retry is waiting to fire. */
  predicate RetryPending(s: State)
  {
    s.retry.Some? && s.retry.value.pending
  }

  // --------------------------------------------------------------- rollover

  /** `_roll_prices_if_needed`: once the stored "tomorrow" series is dated today and the
      "today" series is not, the former becomes the latter and "tomorrow" is emptied. */
  function Roll(st: Store, today: int): (r: Store)
    ensures st.todayDate == Some(today) || st.tomorrowDate != Some(today) ==> r == st
    ensures st.todayDate != Some(today) && st.tomorrowDate == Some(today) ==>
      r.today == st.tomorrow && r.todayDate == Some(today) && r.tomorrow == [] && r.tomorrowDate == None
    ensures r.todayDate == Some(today) <==> st.todayDate == Some(today) || st.tomorrowDate == Some(today)
    ensures r.tomorrowDate != Some(today)  || r == st
  {
    if st.todayDate == Some(today) then st
    else if st.tomorrowDate == Some(today) then Store(st.tomorrow, [], st.tomorrowDate, None)
    else st
  }

  /** Rolling twice on the same day is rolling once. */
  lemma RollIdempotent(st: Store, today: int)
    ensures Roll(Roll(st, today), today) == Roll(st, today)
  {
  }

  // ------------------------------------------------------------- fetching

  /** `round(x, 2)`: the nearest hundredth, ties to an even number of hundredths. */
  function Round2(x: real): (r: real)
    ensures Abs(r - x) <= 0.005
    ensures (r * 100.0).Floor as real == r * 100.0
  {
    var k := RoundHalfEven(x * 100.0);
    assert k as real / 100.0 * 100.0 == k as real;
    FloorOfInt(k);
    k as real / 100.0
  }

  /** A price already in hundredths is left as it is. */
  lemma Round2Idempotent(x: real)
    ensures Round2(Round2(x)) == Round2(x)
  {
    var k := RoundHalfEven(x * 100.0);
    assert Round2(x) * 100.0 == k as real;
    RoundHalfEvenUnique(Round2(x) * 100.0, k);
  }

  /** The price of a point as stored: per kWh instead of per MWh, with VAT, in hundredths. */
  function ScaledPrice(value: real, vat: real): (r: real)
    ensures Abs(r - (value / 1000.0) * (1.0 + vat)) <= 0.005
    ensures (r * 100.0).Floor as real == r * 100.0
  {
    Round2((value / 1000.0) * (1.0 + vat))
  }

  /** The storage part of `_fetch_prices_for_date`: every point keeps its slot and has
      its price scaled. */
  function ApplyVat(points: seq<Point>, vat: real): (r: seq<Point>)
    ensures |r| == |points|
    ensures forall i :: 0 <= i < |points| ==>
      r[i].startTs == points[i].startTs && r[i].endTs == points[i].endTs
      && Abs(r[i].value - (points[i].value / 1000.0) * (1.0 + vat)) <= 0.005
      && r[i].value == ScaledPrice(points[i].value, vat)
  {
    seq(|points|, i requires 0 <= i < |points| =>
      Point(points[i].startTs, points[i].endTs, ScaledPrice(points[i].value, vat)))
  }

  /** Scaling prices keeps the slots' order. */
  lemma ApplyVatKeepsOrder(points: seq<Point>, vat: real)
    requires Normalize.SortedByStart(points)
    ensures Normalize.SortedByStart(ApplyVat(points, vat))
  {
  }

  /** The points a response yields: none when the call failed, else the normalised
      points of the area's raw value, each keeping its slot and with its price turned
      into a per-kWh price carrying the VAT rate `vat`. The caller passes the
      configuration's effective rate (`Config.EffectiveVatRate`). */
  function Fetched(response: Option<Normalize.Raw>, ps: Normalize.Parsers, vat: real): (r: seq<Point>)
    ensures response.None? ==> r == []
    ensures response.Some? ==>
      var n := Normalize.NormalizeRawPoints(response.value, ps);
      && |r| == |n|
      && forall i :: 0 <= i < |r| ==>
        && r[i].startTs == n[i].startTs && r[i].endTs == n[i].endTs
        && r[i].value == ScaledPrice(n[i].value, vat)
        && Abs(r[i].value - (n[i].value / 1000.0) * (1.0 + vat)) <= 0.005
    ensures Normalize.SortedByStart(r)
  {
    match response
    case None => []
    case Some(raw) =>
      var points := Normalize.NormalizeRawPoints(raw, ps);
      ApplyVatKeepsOrder(points, vat);
      ApplyVat(points, vat)
  }

  /** `_fetch_prices_for_date` after the service call, given the points the call
      yielded (`Fetched`): no points means failure and an unchanged store; otherwise the
      points wholly replace the series for the asked date, which is "today" exactly when
      the asked date is the current local date. */
  function FetchForDate(st: Store, asked: int, now: int, points: seq<Point>): (r: (bool, Store))
    ensures r.0 <==> |points| > 0
    ensures !r.0 ==> r.1 == st
    ensures r.0 && asked == Day(now) ==>
      && r.1.today == points && r.1.todayDate == Some(asked)
      && r.1.tomorrow == st.tomorrow && r.1.tomorrowDate == st.tomorrowDate
    ensures r.0 && asked != Day(now) ==>
      && r.1.tomorrow == points && r.1.tomorrowDate == Some(asked)
      && r.1.today == st.today && r.1.todayDate == st.todayDate
  {
    if |points| == 0 then (false, st)
    else if asked == Day(now) then (true, st.(today := points, todayDate := Some(asked)))
    else (true, st.(tomorrow := points, tomorrowDate := Some(asked)))
  }

  /** The whole of `_fetch_prices_for_date`: it succeeds exactly when the call went
      through and the area's value has a usable record, and it then stores a non-empty
      series sorted by start under the asked date. */
  lemma FetchOutcome(st: Store, asked: int, now: int, response: Option<Normalize.Raw>,
                     ps: Normalize.Parsers, vat: real)
    ensures var (ok, r) := FetchForDate(st, asked, now, Fetched(response, ps, vat));
      && (ok <==> response.Some? && |Normalize.NormalizeRawPoints(response.value, ps)| > 0)
      && (ok && asked == Day(now) ==> |r.today| > 0 && Normalize.SortedByStart(r.today))
      && (ok && asked != Day(now) ==> |r.tomorrow| > 0 && Normalize.SortedByStart(r.tomorrow))
  {
  }

  /** A "today" retry that succeeds only after midnight is routed by the new date: its
      points for the previous day land in the "tomorrow" series, where no rollover on the
      current or a later date ever promotes them. */
  lemma LateRetryLandsInTomorrow(st: Store, asked: int, now: int, points: seq<Point>, later: int)
    requires asked < Day(now) && FetchForDate(st, asked, now, points).0
    requires later >= Day(now)
    ensures var r := FetchForDate(st, asked, now, points).1;
      && r.today == st.today && r.tomorrowDate == Some(asked)
      && Roll(r, later) == r
  {
  }

  /** A fetch for a date other than the current one never touches the "today" series,
      and the only date it can record is the asked one. */
  lemma FetchRouting(st: Store, asked: int, now: int, points: seq<Point>)
    requires asked != Day(now)
    ensures var r := FetchForDate(st, asked, now, points).1;
      && r.today == st.today && r.todayDate == st.todayDate
      && (r.tomorrowDate != st.tomorrowDate ==> r.tomorrowDate == Some(asked))
  {
  }

  // ------------------------------------------------------------ attempts

  /** `_attempt_fetch_with_retry`: on success the retry slot is cleared and a refresh is
      requested; on failure before the deadline a retry with the same arguments is put
      into the one retry slot, `interval` seconds from now, replacing whatever was there;
      on failure at or after the deadline nothing changes. */
  function AttemptFetch(s: State, call: RetryCall, now: int, points: seq<Point>): (r: (bool, State))
    ensures r.0 == FetchForDate(s.store, call.target, now, points).0
    ensures r.0 ==> r.1 == s.(store := FetchForDate(s.store, call.target, now, points).1,
                              retry := None, refreshes := s.refreshes + 1)
    ensures !r.0 && now < call.deadline ==> r.1 == s.(retry := Some(RetryTimer(now + call.interval, call, true)))
    ensures !r.0 && now >= call.deadline ==> r.1 == s
    ensures r.1.daily == s.daily && r.1.midnight == s.midnight
  {
    var (ok, store) := FetchForDate(s.store, call.target, now, points);
    if ok then (true, s.(store := store, retry := None, refreshes := s.refreshes + 1))
    else if now < call.deadline then (false, ScheduleRetry(s, now + call.interval, call))
    else (false, s)
  }

  /** An attempt for a date other than the current one never touches "today", can only
      record the asked date for "tomorrow", and any retry it newly arms is its own call. */
  lemma AttemptRouting(s: State, call: RetryCall, now: int, points: seq<Point>)
    requires call.target != Day(now)
    ensures var r := AttemptFetch(s, call, now, points).1;
      && r.store.today == s.store.today && r.store.todayDate == s.store.todayDate
      && (r.store.tomorrowDate != s.store.tomorrowDate ==> r.store.tomorrowDate == Some(call.target))
      && (RetryPending(r) && !RetryPending(s) ==> r.retry.value.call == call)
  {
    FetchRouting(s.store, call.target, now, points);
  }

  /** `_schedule_retry`: the previous handle, pending or not, is cancelled and replaced. */
  function ScheduleRetry(s: State, when: int, call: RetryCall): (r: State)
    ensures RetryPending(r) && r.retry.value.fireAt == when && r.retry.value.call == call
    ensures r.(retry := s.retry) == s
  {
    s.(retry := Some(RetryTimer(when, call, true)))
  }

  /** `_handle_retry`: the pending retry fires at `now`; its handle stays in the slot,
      no longer pending, unless the attempt replaces or clears it. */
  function FireRetry(s: State, now: int, points: seq<Point>): (r: State)
    requires RetryPending(s)
    ensures var call := s.retry.value.call;
      && (RetryPending(r) <==> !FetchForDate(s.store, call.target, now, points).0 && now < call.deadline)
      && (RetryPending(r) ==> r.retry.value.call == call && r.retry.value.fireAt == now + call.interval)
      && r.daily == s.daily && r.midnight == s.midnight
    ensures var call := s.retry.value.call;
      var (ok, store) := FetchForDate(s.store, call.target, now, points);
      && r.store == store
      && r.refreshes == (if ok then s.refreshes + 1 else s.refreshes)
  {
    var timer := s.retry.value;
    AttemptFetch(s.(retry := Some(timer.(pending := false))), timer.call, now, points).1
  }

  /** Retries of one call end: each firing at or after its due time that does not stop
      the chain pushes the next firing at least one interval later, and never past the
      deadline by a whole interval. */
  lemma RetryProgress(s: State, now: int, points: seq<Point>)
    requires RetryPending(s) && now >= s.retry.value.fireAt
    ensures var r := FireRetry(s, now, points);
      RetryPending(r) ==>
        && r.retry.value.fireAt >= s.retry.value.fireAt + s.retry.value.call.interval
        && r.retry.value.fireAt < s.retry.value.call.deadline + s.retry.value.call.interval
  {
  }

  /** The single retry slot: a failing "tomorrow" attempt before its deadline replaces a
      pending "today" retry, after which no "today" retry is pending at all. */
  lemma TomorrowRetryReplacesToday(s: State, call: RetryCall, now: int, points: seq<Point>)
    requires RetryPending(s) && s.retry.value.call.series == Today
    requires call.series == Tomorrow && now < call.deadline
    requires !FetchForDate(s.store, call.target, now, points).0
    ensures var r := AttemptFetch(s, call, now, points).1;
      RetryPending(r) && r.retry.value.call.series == Tomorrow
  {
  }

  /** A successful attempt for either series cancels whichever retry was pending. */
  lemma SuccessCancelsAnyRetry(s: State, call: RetryCall, now: int, points: seq<Point>)
    requires RetryPending(s)
    requires FetchForDate(s.store, call.target, now, points).0
    ensures !RetryPending(AttemptFetch(s, call, now, points).1)
  {
  }

  // ------------------------------------------------------------- anchors

  /** `_next_stockholm_time` / `_next_stockholm_datetime`: the first instant after `now`
      whose time of day is `sec` (today's if still ahead, else tomorrow's). */
  function NextAnchor(now: int, sec: int): (r: int)
    requires 0 <= sec < DAY_S
    ensures now < r <= now + DAY_S
    ensures SecOfDay(r) == sec
    ensures forall t :: now < t < r ==> SecOfDay(t) != sec
  {
    var target := At(Day(now), sec);
    var r := if target <= now then target + DAY_S else target;
    assert Day(r) * DAY_S + sec == r;
    forall t | now < t < r
      ensures SecOfDay(t) != sec
    {
      if SecOfDay(t) == sec {
        SameTimeOfDay(t, r);
      }
    }
    r
  }

  /** Two distinct instants with the same time of day are at least a day apart. */
  lemma SameTimeOfDay(a: int, b: int)
    requires a < b && SecOfDay(a) == SecOfDay(b)
    ensures b - a >= DAY_S
  {
    assert b - a == (Day(b) - Day(a)) * DAY_S;
  }

  /** `_schedule_next_tomorrow_fetch`: the daily handle is replaced by one at the next 13:30. */
  function ScheduleDaily(s: State, now: int): (r: State)
    ensures r.daily.Some? && now < r.daily.value <= now + DAY_S && SecOfDay(r.daily.value) == RELEASE_S
    ensures r.(daily := s.daily) == s
  {
    s.(daily := Some(NextAnchor(now, RELEASE_S)))
  }

  /** `_schedule_midnight_roll`: the midnight handle is replaced by one at the next 00:00:10. */
  function ScheduleMidnight(s: State, now: int): (r: State)
    ensures r.midnight.Some? && now < r.midnight.value <= now + DAY_S && SecOfDay(r.midnight.value) == MIDNIGHT_ROLL_S
    ensures r.(midnight := s.midnight) == s
  {
    s.(midnight := Some(NextAnchor(now, MIDNIGHT_ROLL_S)))
  }

  /** `_handle_tomorrow_fetch`: try tomorrow's prices until 13:40 today, then re-arm the
      daily anchor. Today's series is never touched. Fetched points become tomorrow's
      series and cancel any retry; no points before 13:40 arm a retry a minute later;
      no points from 13:40 on leave store and retry slot as they were. */
  function HandleDaily(s: State, now: int, points: seq<Point>): (r: State)
    ensures r.store.today == s.store.today && r.store.todayDate == s.store.todayDate
    ensures r.midnight == s.midnight
    ensures r.daily == Some(NextAnchor(now, RELEASE_S))
    ensures r.store.tomorrowDate != s.store.tomorrowDate ==> r.store.tomorrowDate == Some(Day(now) + 1)
    ensures RetryPending(r) && !RetryPending(s) ==>
      r.retry.value.call == RetryCall(Day(now) + 1, At(Day(now), RELEASE_DEADLINE_S), Tomorrow, REGULAR_INTERVAL_S)
    ensures |points| > 0 ==>
      && r.store.tomorrow == points && r.store.tomorrowDate == Some(Day(now) + 1)
      && r.retry.None? && r.refreshes == s.refreshes + 1
    ensures |points| == 0 && SecOfDay(now) < RELEASE_DEADLINE_S ==>
      && r.store == s.store && r.refreshes == s.refreshes
      && r.retry == Some(RetryTimer(now + REGULAR_INTERVAL_S,
                                    RetryCall(Day(now) + 1, At(Day(now), RELEASE_DEADLINE_S), Tomorrow, REGULAR_INTERVAL_S),
                                    true))
    ensures |points| == 0 && SecOfDay(now) >= RELEASE_DEADLINE_S ==>
      r.store == s.store && r.retry == s.retry && r.refreshes == s.refreshes
  {
    var today := Day(now);
    var call := RetryCall(today + 1, At(today, RELEASE_DEADLINE_S), Tomorrow, REGULAR_INTERVAL_S);
    AttemptRouting(s, call, now, points);
    ScheduleDaily(AttemptFetch(s, call, now, points).1, now)
  }

  /** `_handle_midnight_roll`: roll the store; when that leaves "today" empty, try today's
      prices for a minute, retrying every 10 seconds; request a refresh and re-arm the
      midnight anchor. */
  function HandleMidnight(s: State, now: int, points: seq<Point>): (r: State)
    ensures |Roll(s.store, Day(now)).today| > 0 ==> r.store == Roll(s.store, Day(now)) && r.retry == s.retry
    ensures |Roll(s.store, Day(now)).today| == 0 && |points| > 0 ==>
      && r.store == Roll(s.store, Day(now)).(today := points, todayDate := Some(Day(now)))
      && r.retry.None?
    ensures |Roll(s.store, Day(now)).today| == 0 && |points| == 0 ==>
      && r.store == Roll(s.store, Day(now))
      && r.retry == Some(RetryTimer(now + FAST_INTERVAL_S,
                                    RetryCall(Day(now), now + REGULAR_WINDOW_S, Today, FAST_INTERVAL_S),
                                    true))
    ensures r.refreshes > s.refreshes
    ensures r.daily == s.daily
    ensures r.midnight == Some(NextAnchor(now, MIDNIGHT_ROLL_S))
    ensures r.store.tomorrowDate == Roll(s.store, Day(now)).tomorrowDate
  {
    var s1 := s.(store := Roll(s.store, Day(now)));
    var s2 := if |s1.store.today| == 0 then
      AttemptFetch(s1, RetryCall(Day(now), now + REGULAR_WINDOW_S, Today, FAST_INTERVAL_S), now, points).1
    else s1;
    ScheduleMidnight(s2.(refreshes := s2.refreshes + 1), now)
  }

  /** `async_stop`: all three handles are cancelled; the store is kept. */
  function Stop(s: State): (r: State)
    ensures r.daily.None? && r.midnight.None? && r.retry.None?
    ensures r.store == s.store && r.refreshes == s.refreshes
    ensures !RetryPending(r)
  {
    s.(daily := None, midnight := None, retry := None)
  }

  // ------------------------------------------------------------- refresh plan

  /** One step of `async_refresh_prices`. */
  datatype Step = Attempt(call: RetryCall) | Sleep(seconds: int) | PlainFetch(date: int)

  /** The series a step may write: the target date of an attempt or plain fetch. */
  predicate Touches(st: Step, date: int)
  {
    (st.Attempt? && st.call.target == date) || (st.PlainFetch? && st.date == date)
  }

  /** `async_refresh_prices`: always one attempt for today; from 13:30 on, tomorrow too.
      At start-up that is a pause, a "tomorrow" attempt and a second "today" attempt, all
      retrying every 10 seconds for two minutes from `now`. Otherwise it is an attempt
      retrying every minute until 13:40, or a single plain fetch once 13:40 has passed. */
  function RefreshPlan(startup: bool, now: int): (r: seq<Step>)
    ensures |r| >= 1 && r[0].Attempt? && r[0].call.target == Day(now) && r[0].call.series == Today
    ensures r[0].call.deadline > now
    ensures SecOfDay(now) < RELEASE_S <==> |r| == 1
    ensures forall i :: 0 <= i < |r| && r[i].Attempt? ==>
      && (r[i].call.target == Day(now) || r[i].call.target == Day(now) + 1)
      && (r[i].call.series == Today <==> r[i].call.target == Day(now))
      && r[i].call.deadline >= now && r[i].call.interval > 0
    ensures (exists i :: 0 <= i < |r| && Touches(r[i], Day(now) + 1)) <==> SecOfDay(now) >= RELEASE_S
    ensures startup ==> forall i :: 0 <= i < |r| && r[i].Attempt? ==>
      r[i].call.interval == FAST_INTERVAL_S && r[i].call.deadline == now + STARTUP_WINDOW_S
    ensures !startup ==> forall i :: 1 <= i < |r| ==> !r[i].Attempt? || r[i].call.deadline == At(Day(now), RELEASE_DEADLINE_S)
    ensures startup ==> r[0].call == RetryCall(Day(now), now + STARTUP_WINDOW_S, Today, FAST_INTERVAL_S)
    ensures !startup ==> r[0].call == RetryCall(Day(now), now + REGULAR_WINDOW_S, Today, REGULAR_INTERVAL_S)
    ensures startup && SecOfDay(now) >= RELEASE_S ==>
      r == [r[0], Sleep(STARTUP_PAUSE_S),
            Attempt(RetryCall(Day(now) + 1, now + STARTUP_WINDOW_S, Tomorrow, FAST_INTERVAL_S)), r[0]]
    ensures !startup && RELEASE_S <= SecOfDay(now) <= RELEASE_DEADLINE_S ==>
      r == [r[0], Attempt(RetryCall(Day(now) + 1, At(Day(now), RELEASE_DEADLINE_S), Tomorrow, REGULAR_INTERVAL_S))]
    ensures !startup && SecOfDay(now) > RELEASE_DEADLINE_S ==> r == [r[0], PlainFetch(Day(now) + 1)]
  {
    var today := Day(now);
    var first :=
      if startup then Attempt(RetryCall(today, now + STARTUP_WINDOW_S, Today, FAST_INTERVAL_S))
      else Attempt(RetryCall(today, now + REGULAR_WINDOW_S, Today, REGULAR_INTERVAL_S));
    if SecOfDay(now) < RELEASE_S then
      [first]
    else if startup then
      var r := [first, Sleep(STARTUP_PAUSE_S),
                Attempt(RetryCall(today + 1, now + STARTUP_WINDOW_S, Tomorrow, FAST_INTERVAL_S)),
                Attempt(RetryCall(today, now + STARTUP_WINDOW_S, Today, FAST_INTERVAL_S))];
      assert Touches(r[2], today + 1);
      r
    else
      var deadline := At(today, RELEASE_DEADLINE_S);
      var r := if now > deadline then [first, PlainFetch(today + 1)]
               else [first, Attempt(RetryCall(today + 1, deadline, Tomorrow, REGULAR_INTERVAL_S))];
      assert Touches(r[1], today + 1);
      r
  }

  /** Carries out a plan from `now`, the points of one fetch per step (a pause ignores its own and
      advances the clock; attempts and fetches take no time). A series changes only to
      the points of some fetching step, and a date only to a date some step touches. When
      the plan makes attempts and every attempt gets points, no retry is left; without
      attempts the retry slot is kept. */
  function RunPlan(s: State, plan: seq<Step>, now: int, responses: seq<seq<Point>>): (r: State)
    requires |responses| == |plan|
    ensures r.daily == s.daily && r.midnight == s.midnight
    ensures r.refreshes >= s.refreshes
    ensures (forall i :: 0 <= i < |plan| ==> plan[i].Sleep?) ==> r == s
    ensures r.store.today == s.store.today ||
      exists i :: 0 <= i < |plan| && !plan[i].Sleep? && r.store.today == responses[i]
    ensures r.store.tomorrow == s.store.tomorrow ||
      exists i :: 0 <= i < |plan| && !plan[i].Sleep? && r.store.tomorrow == responses[i]
    ensures r.store.todayDate == s.store.todayDate ||
      (r.store.todayDate.Some? && exists i :: 0 <= i < |plan| && Touches(plan[i], r.store.todayDate.value))
    ensures r.store.tomorrowDate == s.store.tomorrowDate ||
      (r.store.tomorrowDate.Some? && exists i :: 0 <= i < |plan| && Touches(plan[i], r.store.tomorrowDate.value))
    ensures (forall i :: 0 <= i < |plan| ==> !plan[i].Attempt?) ==> r.retry == s.retry
    ensures
      && (exists i :: 0 <= i < |plan| && plan[i].Attempt?)
      && (forall i :: 0 <= i < |plan| && plan[i].Attempt? ==> |responses[i]| > 0)
      ==> r.retry.None?
    decreases |plan|
  {
    if |plan| == 0 then s
    else
      assert forall i :: 0 <= i < |plan| - 1 ==> plan[1..][i] == plan[i + 1] && responses[1..][i] == responses[i + 1];
      match plan[0]
      case Sleep(d) => RunPlan(s, plan[1..], now + d, responses[1..])
      case PlainFetch(date) =>
        var st := FetchForDate(s.store, date, now, responses[0]).1;
        RunPlan(s.(store := st), plan[1..], now, responses[1..])
      case Attempt(call) =>
        RunPlan(AttemptFetch(s, call, now, responses[0]).1, plan[1..], now, responses[1..])
  }

  /** The afternoon start-up run step by step: a "today" attempt, a 5-second pause, a
      "tomorrow" attempt and the same "today" attempt again. */
  lemma StartupRun(s: State, now: int, responses: seq<seq<Point>>)
    requires SecOfDay(now) >= RELEASE_S && |responses| == 4
    ensures |RefreshPlan(true, now)| == 4
    ensures var c0 := RetryCall(Day(now), now + STARTUP_WINDOW_S, Today, FAST_INTERVAL_S);
      var c2 := RetryCall(Day(now) + 1, now + STARTUP_WINDOW_S, Tomorrow, FAST_INTERVAL_S);
      var t := now + STARTUP_PAUSE_S;
      RunPlan(s, RefreshPlan(true, now), now, responses) ==
        AttemptFetch(AttemptFetch(AttemptFetch(s, c0, now, responses[0]).1, c2, t, responses[2]).1, c0, t, responses[3]).1
  {
    var plan := RefreshPlan(true, now);
    var today := Day(now);
    var c0 := RetryCall(today, now + STARTUP_WINDOW_S, Today, FAST_INTERVAL_S);
    var c2 := RetryCall(today + 1, now + STARTUP_WINDOW_S, Tomorrow, FAST_INTERVAL_S);
    var t := now + STARTUP_PAUSE_S;
    var s1 := AttemptFetch(s, c0, now, responses[0]).1;
    var s2 := AttemptFetch(s1, c2, t, responses[2]).1;
    var s3 := AttemptFetch(s2, c0, t, responses[3]).1;
    assert plan == [Attempt(c0), Sleep(STARTUP_PAUSE_S), Attempt(c2), Attempt(c0)];
    calc {
      RunPlan(s, plan, now, responses);
      RunPlan(s1, plan[1..], now, responses[1..]);
      { assert plan[1..][0] == Sleep(STARTUP_PAUSE_S) && plan[1..][1..] == plan[2..]; }
      RunPlan(s1, plan[2..], t, responses[2..]);
      { assert plan[2..][0] == Attempt(c2) && plan[2..][1..] == [Attempt(c0)] && responses[2..][1..] == [responses[3]]; }
      RunPlan(s2, [Attempt(c0)], t, [responses[3]]);
      { assert [Attempt(c0)][1..] == [] && [responses[3]][1..] == []; }
      RunPlan(s3, [], t, []);
    }
  }

  /** The single retry slot at start-up after 13:30: when all three attempts fail, the
      retry left pending is the second "today" one; the "tomorrow" retry has been
      replaced, so tomorrow's prices are retried by no timer. */
  lemma StartupLosesTomorrowRetry(s: State, now: int)
    requires SecOfDay(now) >= RELEASE_S
    ensures var r := RunPlan(s, RefreshPlan(true, now), now, [[], [], [], []]);
      && RetryPending(r)
      && r.retry.value.call == RetryCall(Day(now), now + STARTUP_WINDOW_S, Today, FAST_INTERVAL_S)
      && r.retry.value.fireAt == now + STARTUP_PAUSE_S + FAST_INTERVAL_S
      && r.store == s.store
  {
    StartupRun(s, now, [[], [], [], []]);
  }

  /** A refresh whose every fetch gets points stores today's prices (the last "today"
      attempt's) under today's date and, from 13:30 on, tomorrow's under tomorrow's date;
      no retry is left pending. At start-up this needs the 5-second pause to end on the
      same date (see `StartupAcrossMidnight` for the other case). */
  lemma RefreshSucceeds(s: State, startup: bool, now: int, responses: seq<seq<Point>>)
    requires |responses| == |RefreshPlan(startup, now)|
    requires forall i :: 0 <= i < |responses| ==> |responses[i]| > 0
    requires startup ==> SecOfDay(now) + STARTUP_PAUSE_S < DAY_S
    ensures var r := RunPlan(s, RefreshPlan(startup, now), now, responses);
      && r.store.today == responses[if startup && SecOfDay(now) >= RELEASE_S then 3 else 0]
      && r.store.todayDate == Some(Day(now))
      && (SecOfDay(now) >= RELEASE_S ==>
            r.store.tomorrow == responses[if startup then 2 else 1] && r.store.tomorrowDate == Some(Day(now) + 1))
      && (SecOfDay(now) < RELEASE_S ==> r.store.tomorrow == s.store.tomorrow && r.store.tomorrowDate == s.store.tomorrowDate)
      && r.retry.None?
  {
    if SecOfDay(now) < RELEASE_S {
      MorningRefreshSucceeds(s, startup, now, responses);
    } else if startup {
      StartupRefreshSucceeds(s, now, responses);
    } else {
      AfternoonRefreshSucceeds(s, now, responses);
    }
  }

  /** Before 13:30 a refresh is the one "today" attempt. */
  lemma MorningRefreshSucceeds(s: State, startup: bool, now: int, responses: seq<seq<Point>>)
    requires SecOfDay(now) < RELEASE_S
    requires |responses| == 1 && |responses[0]| > 0
    ensures |RefreshPlan(startup, now)| == 1
    ensures var r := RunPlan(s, RefreshPlan(startup, now), now, responses);
      && r.store.today == responses[0] && r.store.todayDate == Some(Day(now))
      && r.store.tomorrow == s.store.tomorrow && r.store.tomorrowDate == s.store.tomorrowDate
      && r.retry.None?
  {
    var plan := RefreshPlan(startup, now);
    var s1 := AttemptFetch(s, plan[0].call, now, responses[0]).1;
    calc {
      RunPlan(s, plan, now, responses);
      { assert plan[1..] == [] && responses[1..] == []; }
      RunPlan(s1, [], now, []);
    }
  }

  /** From 13:30 on, a start-up refresh whose pause stays within the day fetches tomorrow
      and then today again. */
  lemma StartupRefreshSucceeds(s: State, now: int, responses: seq<seq<Point>>)
    requires RELEASE_S <= SecOfDay(now) && SecOfDay(now) + STARTUP_PAUSE_S < DAY_S
    requires |responses| == 4 && |responses[2]| > 0 && |responses[3]| > 0
    ensures |RefreshPlan(true, now)| == 4
    ensures var r := RunPlan(s, RefreshPlan(true, now), now, responses);
      && r.store.today == responses[3] && r.store.todayDate == Some(Day(now))
      && r.store.tomorrow == responses[2] && r.store.tomorrowDate == Some(Day(now) + 1)
      && r.retry.None?
  {
    assert now + STARTUP_PAUSE_S == At(Day(now), SecOfDay(now) + STARTUP_PAUSE_S);
    StartupRun(s, now, responses);
  }

  /** From 13:30 on, a regular refresh fetches today and then tomorrow, by an attempt
      until 13:40 and by a plain fetch after it. */
  lemma AfternoonRefreshSucceeds(s: State, now: int, responses: seq<seq<Point>>)
    requires RELEASE_S <= SecOfDay(now)
    requires |responses| == 2 && |responses[0]| > 0 && |responses[1]| > 0
    ensures |RefreshPlan(false, now)| == 2
    ensures var r := RunPlan(s, RefreshPlan(false, now), now, responses);
      && r.store.today == responses[0] && r.store.todayDate == Some(Day(now))
      && r.store.tomorrow == responses[1] && r.store.tomorrowDate == Some(Day(now) + 1)
      && r.retry.None?
  {
    var plan := RefreshPlan(false, now);
    var s1 := AttemptFetch(s, plan[0].call, now, responses[0]).1;
    var s2 := RunPlan(s1, [plan[1]], now, [responses[1]]);
    calc {
      RunPlan(s, plan, now, responses);
      { assert plan[1..] == [plan[1]] && responses[1..] == [responses[1]]; }
      s2;
    }
    assert [plan[1]][1..] == [] && [responses[1]][1..] == [];
  }

  /** A start-up in the last 5 seconds of a day computes both dates before its pause and
      routes after it: tomorrow's prices arrive on their own date and fill "today", and
      the second "today" attempt, for the now previous date, fills "tomorrow" with the
      previous day's prices, which no later rollover removes. */
  lemma StartupAcrossMidnight(s: State, now: int, responses: seq<seq<Point>>)
    requires SecOfDay(now) + STARTUP_PAUSE_S >= DAY_S
    requires |responses| == 4 && |responses[2]| > 0 && |responses[3]| > 0
    ensures |RefreshPlan(true, now)| == 4
    ensures var r := RunPlan(s, RefreshPlan(true, now), now, responses);
      && r.store.today == responses[2] && r.store.todayDate == Some(Day(now) + 1)
      && r.store.tomorrow == responses[3] && r.store.tomorrowDate == Some(Day(now))
      && forall later :: later >= Day(now) + 1 ==> Roll(r.store, later).tomorrow == responses[3]
  {
    assert now + STARTUP_PAUSE_S == At(Day(now) + 1, SecOfDay(now) + STARTUP_PAUSE_S - DAY_S);
    StartupRun(s, now, responses);
  }

  /** `async_start`: arm both anchors, then run the start-up refresh. The refresh count
      never drops, each series ends as it was or as the points of one of the refresh's
      fetches, and when every attempt gets points no retry is left (see `StartSucceeds`). */
  function Start(s: State, now: int, responses: seq<seq<Point>>): (r: State)
    requires |responses| == |RefreshPlan(true, now)|
    ensures r.daily == Some(NextAnchor(now, RELEASE_S))
    ensures r.midnight == Some(NextAnchor(now, MIDNIGHT_ROLL_S))
    ensures r.refreshes >= s.refreshes
    ensures r.store.today == s.store.today ||
      exists i :: 0 <= i < |responses| && !RefreshPlan(true, now)[i].Sleep? && r.store.today == responses[i]
    ensures r.store.tomorrow == s.store.tomorrow ||
      exists i :: 0 <= i < |responses| && !RefreshPlan(true, now)[i].Sleep? && r.store.tomorrow == responses[i]
    ensures (forall i :: 0 <= i < |responses| ==> |responses[i]| > 0) ==> r.retry.None?
  {
    var plan := RefreshPlan(true, now);
    assert plan[0].Attempt?;
    RunPlan(ScheduleMidnight(ScheduleDaily(s, now), now), plan, now, responses)
  }

  /** A start-up whose every fetch gets points, with its pause ending on the same date,
      arms both anchors and stores both series as `RefreshSucceeds` says, with no retry
      left. */
  lemma StartSucceeds(s: State, now: int, responses: seq<seq<Point>>)
    requires |responses| == |RefreshPlan(true, now)|
    requires forall i :: 0 <= i < |responses| ==> |responses[i]| > 0
    requires SecOfDay(now) + STARTUP_PAUSE_S < DAY_S
    ensures var r := Start(s, now, responses);
      && r.daily == Some(NextAnchor(now, RELEASE_S)) && r.midnight == Some(NextAnchor(now, MIDNIGHT_ROLL_S))
      && r.store.today == responses[if SecOfDay(now) >= RELEASE_S then 3 else 0]
      && r.store.todayDate == Some(Day(now))
      && (SecOfDay(now) >= RELEASE_S ==> r.store.tomorrow == responses[2] && r.store.tomorrowDate == Some(Day(now) + 1))
      && (SecOfDay(now) < RELEASE_S ==> r.store.tomorrow == s.store.tomorrow && r.store.tomorrowDate == s.store.tomorrowDate)
      && r.retry.None?
  {
    RefreshSucceeds(ScheduleMidnight(ScheduleDaily(s, now), now), true, now, responses);
  }
}
