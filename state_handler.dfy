/** Turning a command string into the indicator state (main/state_handler.c). */
module StateHandler {
  import opened Led

  /** The spelling of each enumerator, the only strings the lookup accepts. */
  function Name(s: LedState): string
  {
    match s
    case LedOff => "LED_OFF"
    case LedRed => "LED_RED"
    case LedGreen => "LED_GREEN"
    case LedBlue => "LED_BLUE"
    case LedFlashingRed => "LED_FLASHING_RED"
    case LedFlashingGreen => "LED_FLASHING_GREEN"
    case LedFlashingBlue => "LED_FLASHING_BLUE"
    case LedFlashingWhite => "LED_FLASHING_WHITE"
    case LedPulsatingRed => "LED_PULSATING_RED"
    case LedPulsatingGreen => "LED_PULSATING_GREEN"
    case LedPulsatingBlue => "LED_PULSATING_BLUE"
    case LedPulsatingWhite => "LED_PULSATING_WHITE"
  }

  /** lookup_led_state: a chain of exact, case-sensitive comparisons (strcmp)
      with LED_OFF as the fallback. Either the result's name is exactly the
      input, or no state has that name and the result is LED_OFF. */
  function LookupLedState(str: string): (s: LedState)
    ensures Name(s) == str || (s == LedOff && forall t :: Name(t) != str)
  {
    if str == "LED_OFF" then LedOff
    else if str == "LED_RED" then LedRed
    else if str == "LED_GREEN" then LedGreen
    else if str == "LED_BLUE" then LedBlue
    else if str == "LED_FLASHING_RED" then LedFlashingRed
    else if str == "LED_FLASHING_GREEN" then LedFlashingGreen
    else if str == "LED_FLASHING_BLUE" then LedFlashingBlue
    else if str == "LED_FLASHING_WHITE" then LedFlashingWhite
    else if str == "LED_PULSATING_RED" then LedPulsatingRed
    else if str == "LED_PULSATING_GREEN" then LedPulsatingGreen
    else if str == "LED_PULSATING_BLUE" then LedPulsatingBlue
    else if str == "LED_PULSATING_WHITE" then LedPulsatingWhite
    else LedOff
  }

  /** Different states have different names. */
  lemma NameInjective(s: LedState, t: LedState)
    requires Name(s) == Name(t)
    ensures s == t
  {
  }

  /** Every state's name looks up to that state. */
  lemma LookupRoundTrip(s: LedState)
    ensures LookupLedState(Name(s)) == s
  {
    NameInjective(LookupLedState(Name(s)), s);
  }

  /** Any other string, whatever it is, gives LED_OFF. */
  lemma LookupUnknownIsOff(str: string)
    requires forall t :: Name(t) != str
    ensures LookupLedState(str) == LedOff
  {
  }

  /** Matching is exact and case-sensitive. */
  lemma LookupIsExact()
    ensures LookupLedState("led_red") == LedOff
    ensures LookupLedState("LED_RED ") == LedOff
    ensures LookupLedState("LED_RE") == LedOff
    ensures LookupLedState("") == LedOff
  {
  }

  /** set_led_color_based_on_state: only the shared indicator state changes. */
  method SetLedColorBasedOnState(ind: Indicator, str: string)
    modifies ind`state
    ensures ind.state == Code(LookupLedState(str))
    ensures ind.outputs == old(ind.outputs)
  {
    ind.state := Code(LookupLedState(str));
  }

  /** A command that arrives while a cycle is rendering (after the cycle has
      read the shared state) is stored, but the cycle finishes with the state
      it read; the next cycle renders the new one. */
  method CommandDuringCycle(ind: Indicator, str: string)
    modifies ind
    ensures ind.outputs == old(ind.outputs) + CycleTrace(old(ind.state))
    ensures ind.state == Code(LookupLedState(str))
  {
    var snapshot := ind.state;
    SetLedColorBasedOnState(ind, str);
    ind.Render(snapshot);
  }
}
