/** The step-size selector of `select.py`: its fixed options, the mapping from a
    configured step to the option shown, and the guarded option handler. */
module StepSelect {
  import opened Optional
  import Config

  const STEP_SIZE_OPTIONS: seq<string> := ["0.1", "0.5", "1.0"]

  /** `_format_step_size`: the option displayed for a configured step size. */
  function FormatStepSize(value: real): (r: string)
    ensures r in STEP_SIZE_OPTIONS
    ensures r == "1.0" <==> value >= 0.75
    ensures r == "0.5" <==> 0.3 <= value < 0.75
    ensures r == "0.1" <==> value < 0.3
  {
    if value >= 0.75 then "1.0"
    else if value >= 0.3 then "0.5"
    else "0.1"
  }

  /** `float(option)` for the three options. */
  function OptionValue(option: string): (r: real)
    requires option in STEP_SIZE_OPTIONS
    ensures r > 0.0
    ensures FormatStepSize(r) == option
  {
    if option == "0.1" then 0.1
    else if option == "0.5" then 0.5
    else 1.0
  }

  /** Displaying is monotone: a larger step never shows a smaller option. */
  lemma FormatMonotone(a: real, b: real)
    requires a <= b
    ensures OptionValue(FormatStepSize(a)) <= OptionValue(FormatStepSize(b))
  {
  }

  /** The option values are exactly the fixed points of display-then-parse. */
  lemma FormatRoundTrip(v: real)
    ensures OptionValue(FormatStepSize(v)) == v <==> v == 0.1 || v == 0.5 || v == 1.0
  {
  }

  /** `async_select_option`: an unknown option changes nothing; a known one is stored
      in the entry's options and in the coordinator as `float(option)`, and is what is
      displayed next. */
  function SelectOption(e: Config.Entry, s: Config.Settings, option: string): (r: (Config.Entry, Config.Settings))
    ensures option !in STEP_SIZE_OPTIONS ==> r == (e, s)
    ensures option in STEP_SIZE_OPTIONS ==>
      && r.1 == s.(stepSize := r.1.stepSize)
      && r.1.stepSize == OptionValue(option)
      && FormatStepSize(r.1.stepSize) == option
      && r.0 == e.(options := e.options.(stepSize := Some(r.1.stepSize)))
  {
    if option !in STEP_SIZE_OPTIONS then (e, s)
    else
      var value := OptionValue(option);
      (e.(options := e.options.(stepSize := Some(value))), s.(stepSize := value))
  }

  /** A selected step survives a reload of the entry. */
  lemma SelectionSurvivesReload(e: Config.Entry, s: Config.Settings, option: string)
    requires option in STEP_SIZE_OPTIONS && e.data.priceEntity.Some?
    ensures var (e', s') := SelectOption(e, s, option);
      Config.ReloadFromEntry(e').Some? && Config.ReloadFromEntry(e').value.stepSize == s'.stepSize
  {
  }
}
