/** The configuration the coordinator derives from its config entry
    (`reload_from_entry`) and the smoothing-level setter. */
module Config {
  import opened Optional
  import opened RealMath
  import opened Const

  /** The keys of a config entry's `data` or `options` dictionary; `None` is a missing key. */
  datatype EntryFields = EntryFields(
    priceEntity: Option<string>,
    area: Option<string>,
    currency: Option<string>,
    includeVat: Option<bool>,
    horizonHours: Option<int>,
    maxOffset: Option<real>,
    nightCap: Option<bool>,
    stepSize: Option<real>,
    smoothingLevel: Option<int>)

  /** A config entry: set-up `data` and user-tunable `options` (an absent `options` is empty). */
  datatype Entry = Entry(data: EntryFields, options: EntryFields)

  /** The coordinator's configuration attributes. */
  datatype Settings = Settings(
    priceEntity: string,
    area: string,
    currency: string,
    includeVat: bool,
    horizonHours: int,
    maxOffset: real,
    nightCap: bool,
    stepSize: real,
    smoothingLevel: int,
    smoothingSlots: int)

  /** What every configuration the coordinator holds satisfies. */
  predicate WellFormed(s: Settings)
  {
    s.area in AREAS && s.currency in CURRENCIES && s.smoothingSlots == SmoothingSlots(s.smoothingLevel)
  }

  /** `str.upper()` on the ASCII letters. */
  function Upper(s: string): (r: string)
    ensures |r| == |s|
    ensures forall i :: 0 <= i < |s| ==> ('a' <= s[i] <= 'z' ==> r[i] as int == s[i] as int - 32)
    ensures forall i :: 0 <= i < |s| ==> (!('a' <= s[i] <= 'z') ==> r[i] == s[i])
  {
    if |s| == 0 then []
    else
      [if 'a' <= s[0] <= 'z' then (s[0] as int - 32) as char else s[0]] + Upper(s[1..])
  }

  /** Smoothing level to moving-average window: 1 (no smoothing) for levels up to 0,
      otherwise the odd window that reaches `level` slots to each side. */
  function SmoothingSlots(level: int): (r: int)
    ensures r >= 1 && r % 2 == 1
    ensures r / 2 == MaxInt(0, level)
    ensures r == 1 <==> level <= 0
    ensures 0 <= level <= 10 ==> r <= 21
  {
    if level <= 0 then 1 else 1 + 2 * level
  }

  /** The area `reload_from_entry` settles on: the upper-cased configured area when it is
      known, `DEFAULT_AREA` otherwise. */
  function ResolveArea(given: Option<string>): (r: string)
    ensures r in AREAS
    ensures Upper(given.GetOr(DEFAULT_AREA)) in AREAS ==> r == Upper(given.GetOr(DEFAULT_AREA))
    ensures Upper(given.GetOr(DEFAULT_AREA)) !in AREAS ==> r == DEFAULT_AREA
  {
    var area := Upper(given.GetOr(DEFAULT_AREA));
    if area in AREAS then area else DEFAULT_AREA
  }

  /** The currency `reload_from_entry` settles on, with the same fallback rule. */
  function ResolveCurrency(given: Option<string>): (r: string)
    ensures r in CURRENCIES
    ensures Upper(given.GetOr(DEFAULT_CURRENCY)) in CURRENCIES ==> r == Upper(given.GetOr(DEFAULT_CURRENCY))
    ensures Upper(given.GetOr(DEFAULT_CURRENCY)) !in CURRENCIES ==> r == DEFAULT_CURRENCY
  {
    var currency := Upper(given.GetOr(DEFAULT_CURRENCY));
    if currency in CURRENCIES then currency else DEFAULT_CURRENCY
  }

  /** `opts.get(k, data.get(k, default))`: options first, then data, then the default. */
  function Pick<T>(fromOptions: Option<T>, fromData: Option<T>, default: T): (r: T)
    ensures fromOptions.Some? ==> r == fromOptions.value
    ensures fromOptions.None? && fromData.Some? ==> r == fromData.value
    ensures fromOptions.None? && fromData.None? ==> r == default
  {
    fromOptions.GetOr(fromData.GetOr(default))
  }

  /** `reload_from_entry`: `None` when the entry has no price entity (the source raises
      before changing anything); otherwise a well-formed configuration whose area and
      currency come from `data` only and whose tunables prefer `options` over `data`. */
  function ReloadFromEntry(e: Entry): (r: Option<Settings>)
    ensures r.Some? <==> e.data.priceEntity.Some?
    ensures r.Some? ==> WellFormed(r.value)
    ensures r.Some? ==> r.value.area == ResolveArea(e.data.area)
    ensures r.Some? ==> r.value.currency == ResolveCurrency(e.data.currency)
    ensures r.Some? ==> r.value.includeVat == e.data.includeVat.GetOr(DEFAULT_INCLUDE_VAT)
    ensures r.Some? ==> r.value.horizonHours == Pick(e.options.horizonHours, e.data.horizonHours, DEFAULT_HORIZON_HOURS)
    ensures r.Some? ==> r.value.maxOffset == Pick(e.options.maxOffset, e.data.maxOffset, DEFAULT_MAX_OFFSET)
    ensures r.Some? ==> r.value.nightCap == Pick(e.options.nightCap, e.data.nightCap, DEFAULT_NIGHT_CAP)
    ensures r.Some? ==> r.value.stepSize == Pick(e.options.stepSize, e.data.stepSize, DEFAULT_STEP_SIZE)
    ensures r.Some? ==> r.value.smoothingLevel == Pick(e.options.smoothingLevel, e.data.smoothingLevel, DEFAULT_SMOOTHING_LEVEL)
  {
    match e.data.priceEntity
    case None => None
    case Some(entity) =>
      var level := Pick(e.options.smoothingLevel, e.data.smoothingLevel, DEFAULT_SMOOTHING_LEVEL);
      Some(Settings(
        entity,
        ResolveArea(e.data.area),
        ResolveCurrency(e.data.currency),
        e.data.includeVat.GetOr(DEFAULT_INCLUDE_VAT),
        Pick(e.options.horizonHours, e.data.horizonHours, DEFAULT_HORIZON_HOURS),
        Pick(e.options.maxOffset, e.data.maxOffset, DEFAULT_MAX_OFFSET),
        Pick(e.options.nightCap, e.data.nightCap, DEFAULT_NIGHT_CAP),
        Pick(e.options.stepSize, e.data.stepSize, DEFAULT_STEP_SIZE),
        level,
        SmoothingSlots(level)))
  }

  /** An entry with only a price entity configures every default. */
  lemma ReloadDefaults(entity: string)
    ensures var none := EntryFields(None, None, None, None, None, None, None, None, None);
      var r := ReloadFromEntry(Entry(none.(priceEntity := Some(entity)), none));
      r == Some(Settings(entity, DEFAULT_AREA, DEFAULT_CURRENCY, DEFAULT_INCLUDE_VAT,
                         DEFAULT_HORIZON_HOURS, DEFAULT_MAX_OFFSET, DEFAULT_NIGHT_CAP,
                         DEFAULT_STEP_SIZE, DEFAULT_SMOOTHING_LEVEL, 3))
  {
    assert Upper(DEFAULT_AREA) == DEFAULT_AREA;
    assert Upper(DEFAULT_CURRENCY) == DEFAULT_CURRENCY;
  }

  /** A lower-case area code is accepted after upper-casing. */
  lemma LowerCaseAreaAccepted()
    ensures ResolveArea(Some("se3")) == "SE3"
  {
    assert Upper("se3") == "SE3";
  }

  /** `async_set_smoothing_level`: the level and its window change together and nothing
      else does, so a well-formed configuration stays well-formed. */
  function SetSmoothingLevel(s: Settings, level: int): (r: Settings)
    ensures r.smoothingLevel == level
    ensures r.smoothingSlots / 2 == MaxInt(0, level) && r.smoothingSlots % 2 == 1
    ensures r.(smoothingLevel := s.smoothingLevel, smoothingSlots := s.smoothingSlots) == s
    ensures WellFormed(s) ==> WellFormed(r)
  {
    s.(smoothingLevel := level, smoothingSlots := SmoothingSlots(level))
  }

  /** The VAT rate applied to fetched prices: the area's rate when VAT is included, else 0. */
  function EffectiveVatRate(s: Settings): (r: real)
    ensures 0.0 <= r < 1.0
    ensures !s.includeVat ==> r == 0.0
    ensures s.includeVat ==> r == VatRate(s.area)
  {
    if s.includeVat then VatRate(s.area) else 0.0
  }
}
