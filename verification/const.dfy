/** The tables and defaults of `const.py` that the coordinator falls back to. */
module Const {

  /** The price areas the integration accepts. */
  const AREAS: seq<string> := [
    "EE", "LT", "LV", "AT", "BE", "BG", "FR", "GER", "NL", "PL", "DK1", "DK2",
    "FI", "NO1", "NO2", "NO3", "NO4", "NO5", "SE1", "SE2", "SE3", "SE4", "SYS", "TEL"]

  /** The currencies the integration accepts. */
  const CURRENCIES: seq<string> := ["DKK", "EUR", "NOK", "PLN", "SEK"]

  const DEFAULT_HORIZON_HOURS: int := 12
  const DEFAULT_MAX_OFFSET: real := 1.0
  const DEFAULT_STEP_SIZE: real := 0.1
  const DEFAULT_SMOOTHING_LEVEL: int := 1
  const DEFAULT_AREA: string := "SE1"
  const DEFAULT_CURRENCY: string := "SEK"
  const DEFAULT_INCLUDE_VAT: bool := false
  /** The night cap is off unless configured (this default is not in `const.py`). */
  const DEFAULT_NIGHT_CAP: bool := false

  /** VAT rate per area; areas without an entry pay none. */
  const VAT_BY_AREA: map<string, real> := map[
    "AT" := 0.20, "BE" := 0.21, "BG" := 0.20, "DK1" := 0.25, "DK2" := 0.25,
    "EE" := 0.24, "FI" := 0.255, "FR" := 0.20, "GER" := 0.19, "LT" := 0.21,
    "LV" := 0.21, "NL" := 0.21, "PL" := 0.23, "NO1" := 0.25, "NO2" := 0.25,
    "NO3" := 0.25, "NO4" := 0.25, "NO5" := 0.25, "SE1" := 0.25, "SE2" := 0.25,
    "SE3" := 0.25, "SE4" := 0.25]

  /** `VAT_BY_AREA.get(area, 0.0)`: a rate in `[0, 1)`, zero for areas without an entry. */
  function VatRate(area: string): (r: real)
    ensures 0.0 <= r < 1.0
    ensures area !in VAT_BY_AREA ==> r == 0.0
    ensures area in VAT_BY_AREA ==> r == VAT_BY_AREA[area]
  {
    VatTableFacts();
    if area in VAT_BY_AREA then VAT_BY_AREA[area] else 0.0
  }

  /** Every taxed area is a known area, and every rate is a fraction below one. */
  lemma VatTableFacts()
    ensures forall a :: a in VAT_BY_AREA ==> a in AREAS
    ensures forall a :: a in VAT_BY_AREA ==> 0.0 <= VAT_BY_AREA[a] < 1.0
  {
  }

  /** The two non-market areas have no VAT entry, so they are charged rate 0. */
  lemma UntaxedAreas()
    ensures "SYS" in AREAS && "TEL" in AREAS
    ensures VatRate("SYS") == 0.0 && VatRate("TEL") == 0.0
  {
  }

  /** The fallbacks used when a configured area or currency is unknown are themselves valid,
      and the numeric defaults lie in the ranges the coordinator expects. */
  lemma DefaultsValid()
    ensures DEFAULT_AREA in AREAS
    ensures DEFAULT_CURRENCY in CURRENCIES
    ensures 0 <= DEFAULT_SMOOTHING_LEVEL <= 10
    ensures DEFAULT_HORIZON_HOURS >= 1
    ensures DEFAULT_MAX_OFFSET > 0.0
    ensures DEFAULT_STEP_SIZE > 0.0
  {
  }
}
