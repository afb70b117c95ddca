/** The tri-colour status LED driven by three 13-bit LEDC PWM channels
    (main/led.c, with the state enumeration of main/led.h). Every duty write
    and every task delay is recorded, in order, in an output trace. */
module Led {
  import opened Wrappers

  /** Largest duty of the 13-bit LEDC timer. */
  const MaxDuty: nat := 8191
  /** Duty increment of one pulsate step, and the delay after each step. */
  const PulseStep: nat := 50
  const PulseDelayMs: nat := 40
  /** Half period of a flash. */
  const FlashDelayMs: nat := 500
  /** Delay at the end of every render cycle. */
  const CycleDelayMs: nat := 100
  /** Number of duties each pulsate ramp visits: 0, 50, ..., 8150 going up
      and 8191, 8141, ..., 41 going down. */
  const RampSteps: nat := 164

  /** led_state_t, in declaration order. */
  datatype LedState =
    | LedOff | LedRed | LedGreen | LedBlue
    | LedFlashingRed | LedFlashingGreen | LedFlashingBlue | LedFlashingWhite
    | LedPulsatingRed | LedPulsatingGreen | LedPulsatingBlue | LedPulsatingWhite

  /** The integer value of each enumerator (C numbers them from 0). */
  function Code(s: LedState): (n: int)
    ensures 0 <= n < 12
  {
    match s
    case LedOff => 0
    case LedRed => 1
    case LedGreen => 2
    case LedBlue => 3
    case LedFlashingRed => 4
    case LedFlashingGreen => 5
    case LedFlashingBlue => 6
    case LedFlashingWhite => 7
    case LedPulsatingRed => 8
    case LedPulsatingGreen => 9
    case LedPulsatingBlue => 10
    case LedPulsatingWhite => 11
  }

  /** The enumerator a stored value stands for; None for a value that no
      enumerator has (the `default:` arm of the render switch). */
  function FromCode(n: int): (r: Option<LedState>)
    ensures r.Some? <==> 0 <= n < 12
    ensures r.Some? ==> Code(r.value) == n
  {
    if n == 0 then Some(LedOff)
    else if n == 1 then Some(LedRed)
    else if n == 2 then Some(LedGreen)
    else if n == 3 then Some(LedBlue)
    else if n == 4 then Some(LedFlashingRed)
    else if n == 5 then Some(LedFlashingGreen)
    else if n == 6 then Some(LedFlashingBlue)
    else if n == 7 then Some(LedFlashingWhite)
    else if n == 8 then Some(LedPulsatingRed)
    else if n == 9 then Some(LedPulsatingGreen)
    else if n == 10 then Some(LedPulsatingBlue)
    else if n == 11 then Some(LedPulsatingWhite)
    else None
  }

  /** Storing a state and reading it back gives the same state. */
  lemma CodeRoundTrip(s: LedState)
    ensures FromCode(Code(s)) == Some(s)
  {
  }

  /** The duties of the red, green and blue channels. */
  datatype Rgb = Rgb(red: nat, green: nat, blue: nat)

  const Black := Rgb(0, 0, 0)

  /** What the LED task does to the outside world: set_led_color, or vTaskDelay. */
  datatype Output = Duty(color: Rgb) | Delay(ms: nat)

  predicate InDutyRange(c: Rgb)
  {
    c.red <= MaxDuty && c.green <= MaxDuty && c.blue <= MaxDuty
  }

  /** Channel c dimmed to `duty`: (c * duty) / max_duty. The source computes it
      in uint32_t; ScaleNoWrap shows that no product it forms wraps. */
  function Scale(c: nat, duty: nat): nat
  {
    (c * duty) / MaxDuty
  }

  function ScaleRgb(c: Rgb, duty: nat): Rgb
  {
    Rgb(Scale(c.red, duty), Scale(c.green, duty), Scale(c.blue, duty))
  }

  /** A dimmed channel never exceeds the full colour, an unlit channel stays
      unlit, and full duty gives the colour back. */
  lemma ScaleBounds(c: nat, duty: nat)
    requires duty <= MaxDuty
    ensures Scale(c, duty) <= c
    ensures c == 0 ==> Scale(c, duty) == 0
    ensures duty == MaxDuty ==> Scale(c, duty) == c
  {
    assert c * duty <= c * MaxDuty by {
      MulMonotone(c, duty, MaxDuty);
    }
    DivMonotone(c * duty, c * MaxDuty, MaxDuty);
    assert (c * MaxDuty) / MaxDuty == c;
  }

  /** A larger duty never gives a dimmer channel. */
  lemma ScaleMonotone(c: nat, d1: nat, d2: nat)
    requires d1 <= d2
    ensures Scale(c, d1) <= Scale(c, d2)
  {
    MulMonotone(c, d1, d2);
    DivMonotone(c * d1, c * d2, MaxDuty);
  }

  /** For 13-bit colours and duties the uint32_t product c * duty does not wrap. */
  lemma ScaleNoWrap(c: nat, duty: nat)
    requires c <= MaxDuty && duty <= MaxDuty
    ensures c * duty < 0x1_0000_0000
  {
    MulMonotone(c, duty, MaxDuty);
    MulMonotone(MaxDuty, c, MaxDuty);
  }

  lemma MulMonotone(c: nat, a: nat, b: nat)
    requires a <= b
    ensures c * a <= c * b
  {
  }

  lemma DivMonotone(a: nat, b: nat, k: nat)
    requires a <= b && 0 < k
    ensures a / k <= b / k
  {
    var qa, qb := a / k, b / k;
    if qa > qb {
      MulMonotone(k, qb + 1, qa);
      assert false;
    }
  }

  /** flash_led_color: colour on, 500 ms, off, 500 ms. */
  function FlashTrace(c: Rgb): seq<Output>
  {
    [Duty(c), Delay(FlashDelayMs), Duty(Black), Delay(FlashDelayMs)]
  }

  /** One iteration of a pulsate loop at the given duty. */
  function PulseStepTrace(c: Rgb, duty: nat): seq<Output>
  {
    [Duty(ScaleRgb(c, duty)), Delay(PulseDelayMs)]
  }

  /** The outputs of a pulsate loop that visits `duties` in order. */
  function Ramp(c: Rgb, duties: seq<nat>): (t: seq<Output>)
    decreases |duties|
  {
    if duties == [] then []
    else Ramp(c, duties[..|duties| - 1]) + PulseStepTrace(c, duties[|duties| - 1])
  }

  /** The first n duties of the rising loop: 0, 50, 100, ... */
  function RisingDuties(n: nat): seq<nat>
  {
    seq(n, i => PulseStep * i)
  }

  /** The first n duties of the falling loop: 8191, 8141, ... */
  function FallingDuties(n: nat): seq<nat>
    requires n <= RampSteps
  {
    seq(n, (i: int) requires 0 <= i < n => MaxDuty - PulseStep * i)
  }

  /** pulsate_led_color: the rising ramp then the falling ramp. */
  function PulseTrace(c: Rgb): seq<Output>
  {
    Ramp(c, RisingDuties(RampSteps)) + Ramp(c, FallingDuties(RampSteps))
  }

  /** What one pass of led_task's switch writes for a state. */
  function StateTrace(s: LedState): seq<Output>
  {
    match s
    case LedOff => [Duty(Rgb(0, 0, 0))]
    case LedRed => [Duty(Rgb(8191, 0, 0))]
    case LedGreen => [Duty(Rgb(0, 8191, 0))]
    case LedBlue => [Duty(Rgb(0, 0, 8191))]
    case LedFlashingRed => FlashTrace(Rgb(8191, 0, 0))
    case LedFlashingGreen => FlashTrace(Rgb(0, 8191, 0))
    case LedFlashingBlue => FlashTrace(Rgb(0, 0, 8191))
    case LedFlashingWhite => FlashTrace(Rgb(8191, 8191, 8191))
    case LedPulsatingRed => PulseTrace(Rgb(8191, 0, 0))
    case LedPulsatingGreen => PulseTrace(Rgb(0, 8191, 0))
    case LedPulsatingBlue => PulseTrace(Rgb(0, 0, 8191))
    case LedPulsatingWhite => PulseTrace(Rgb(8191, 8191, 8191))
  }

  /** One iteration of led_task's loop for the stored value `code`. */
  function CycleTrace(code: int): seq<Output>
  {
    (match FromCode(code)
     case None => [Duty(Black)]
     case Some(s) => StateTrace(s))
    + [Delay(CycleDelayMs)]
  }

  /** The colours written to the PWM channels, in order, without the delays. */
  function Writes(t: seq<Output>): (w: seq<Rgb>)
    ensures |w| <= |t|
    decreases |t|
  {
    if t == [] then []
    else (if t[0].Duty? then [t[0].color] else []) + Writes(t[1..])
  }

  lemma {:induction false} WritesAppend(a: seq<Output>, b: seq<Output>)
    ensures Writes(a + b) == Writes(a) + Writes(b)
    decreases |a|
  {
    if a == [] {
      assert a + b == b;
    } else {
      assert (a + b)[0] == a[0];
      assert (a + b)[1..] == a[1..] + b;
      WritesAppend(a[1..], b);
      assert Writes(a + b) == (if a[0].Duty? then [a[0].color] else []) + Writes(a[1..] + b);
    }
  }

  /** Step k of a ramp writes the colour dimmed to the k-th duty, then waits 40 ms. */
  lemma {:induction false} RampAt(c: Rgb, duties: seq<nat>, k: nat)
    requires k < |duties|
    ensures |Ramp(c, duties)| == 2 * |duties|
    ensures Ramp(c, duties)[2 * k] == Duty(ScaleRgb(c, duties[k]))
    ensures Ramp(c, duties)[2 * k + 1] == Delay(PulseDelayMs)
    decreases |duties|
  {
    var init := duties[..|duties| - 1];
    RampLength(c, init);
    if k < |duties| - 1 {
      RampAt(c, init, k);
    }
  }

  /** Appending one duty to a ramp appends one step to its outputs. */
  lemma RampSnoc(c: Rgb, duties: seq<nat>, d: nat)
    ensures Ramp(c, duties + [d]) == Ramp(c, duties) + PulseStepTrace(c, d)
  {
    assert (duties + [d])[..|duties|] == duties;
  }

  lemma RisingSnoc(n: nat)
    ensures RisingDuties(n + 1) == RisingDuties(n) + [PulseStep * n]
  {
  }

  lemma FallingSnoc(n: nat)
    requires n < RampSteps
    ensures FallingDuties(n + 1) == FallingDuties(n) + [MaxDuty - PulseStep * n]
  {
  }

  /** One more iteration of the rising loop appends one step to its outputs. */
  lemma RisingRampSnoc(c: Rgb, n: nat)
    ensures Ramp(c, RisingDuties(n + 1)) == Ramp(c, RisingDuties(n)) + PulseStepTrace(c, PulseStep * n)
  {
    RisingSnoc(n);
    RampSnoc(c, RisingDuties(n), PulseStep * n);
  }

  /** One more iteration of the falling loop appends one step to its outputs. */
  lemma FallingRampSnoc(c: Rgb, n: nat)
    requires n < RampSteps
    ensures Ramp(c, FallingDuties(n + 1)) == Ramp(c, FallingDuties(n)) + PulseStepTrace(c, MaxDuty - PulseStep * n)
  {
    FallingSnoc(n);
    RampSnoc(c, FallingDuties(n), MaxDuty - PulseStep * n);
  }

  lemma {:induction false} RampLength(c: Rgb, duties: seq<nat>)
    ensures |Ramp(c, duties)| == 2 * |duties|
    decreases |duties|
  {
    if duties != [] {
      RampLength(c, duties[..|duties| - 1]);
    }
  }

  /** The rising ramp starts at 0 and stops at 8150, so it never writes full
      brightness; the falling ramp starts at 8191 and stops at 41, so it never
      writes duty 0. Both visit exactly 164 duties, 50 apart. */
  lemma RampDuties()
    ensures |RisingDuties(RampSteps)| == RampSteps && |FallingDuties(RampSteps)| == RampSteps
    ensures RisingDuties(RampSteps)[0] == 0 && RisingDuties(RampSteps)[RampSteps - 1] == 8150
    ensures FallingDuties(RampSteps)[0] == MaxDuty && FallingDuties(RampSteps)[RampSteps - 1] == 41
    ensures forall k :: 0 <= k < RampSteps ==> RisingDuties(RampSteps)[k] < MaxDuty
    ensures forall k :: 0 <= k < RampSteps ==> 0 < FallingDuties(RampSteps)[k] <= MaxDuty
    ensures PulseStep * RampSteps > MaxDuty && PulseStep * (RampSteps - 1) <= MaxDuty
  {
  }

  /** Entry k of a pulsate trace: even entries write the colour dimmed by the
      rising, then the falling, duty; odd entries wait 40 ms. */
  lemma PulseAt(c: Rgb, k: nat)
    requires k < 4 * RampSteps
    ensures |PulseTrace(c)| == 4 * RampSteps
    ensures k % 2 == 1 ==> PulseTrace(c)[k] == Delay(PulseDelayMs)
    ensures k % 2 == 0 && k < 2 * RampSteps ==>
      PulseTrace(c)[k] == Duty(ScaleRgb(c, RisingDuties(RampSteps)[k / 2]))
    ensures k % 2 == 0 && k >= 2 * RampSteps ==>
      PulseTrace(c)[k] == Duty(ScaleRgb(c, FallingDuties(RampSteps)[(k - 2 * RampSteps) / 2]))
  {
    var up, down := RisingDuties(RampSteps), FallingDuties(RampSteps);
    RampLength(c, up);
    RampLength(c, down);
    if k < 2 * RampSteps {
      RampAt(c, up, k / 2);
    } else {
      RampAt(c, down, (k - 2 * RampSteps) / 2);
    }
  }

  /** Every pulsate write is at most the full colour, channel by channel, and
      a channel that is off in the colour stays off. */
  lemma PulseWritesBounded(c: Rgb, k: nat)
    requires k < |PulseTrace(c)| && PulseTrace(c)[k].Duty?
    ensures PulseTrace(c)[k].color.red <= c.red
    ensures PulseTrace(c)[k].color.green <= c.green
    ensures PulseTrace(c)[k].color.blue <= c.blue
    ensures c.red == 0 ==> PulseTrace(c)[k].color.red == 0
    ensures c.green == 0 ==> PulseTrace(c)[k].color.green == 0
    ensures c.blue == 0 ==> PulseTrace(c)[k].color.blue == 0
  {
    PulseAt(c, 0);
    PulseAt(c, k);
    RampDuties();
    var duty := if k < 2 * RampSteps then RisingDuties(RampSteps)[k / 2]
                else FallingDuties(RampSteps)[(k - 2 * RampSteps) / 2];
    assert PulseTrace(c)[k] == Duty(ScaleRgb(c, duty));
    ScaleBounds(c.red, duty);
    ScaleBounds(c.green, duty);
    ScaleBounds(c.blue, duty);
  }

  /** Brightness never decreases along the rising ramp and never increases
      along the falling ramp. */
  lemma PulseMonotone(c: Rgb, i: nat, j: nat)
    requires i <= j < RampSteps
    ensures |PulseTrace(c)| == 4 * RampSteps
    ensures PulseTrace(c)[2 * i].Duty? && PulseTrace(c)[2 * j].Duty?
    ensures PulseTrace(c)[2 * i].color.red <= PulseTrace(c)[2 * j].color.red
    ensures PulseTrace(c)[2 * i].color.green <= PulseTrace(c)[2 * j].color.green
    ensures PulseTrace(c)[2 * i].color.blue <= PulseTrace(c)[2 * j].color.blue
    ensures PulseTrace(c)[2 * RampSteps + 2 * i].Duty? && PulseTrace(c)[2 * RampSteps + 2 * j].Duty?
    ensures PulseTrace(c)[2 * RampSteps + 2 * j].color.red <= PulseTrace(c)[2 * RampSteps + 2 * i].color.red
    ensures PulseTrace(c)[2 * RampSteps + 2 * j].color.green <= PulseTrace(c)[2 * RampSteps + 2 * i].color.green
    ensures PulseTrace(c)[2 * RampSteps + 2 * j].color.blue <= PulseTrace(c)[2 * RampSteps + 2 * i].color.blue
  {
    var up, down := RisingDuties(RampSteps), FallingDuties(RampSteps);
    PulseAt(c, 2 * i);
    PulseAt(c, 2 * j);
    PulseAt(c, 2 * RampSteps + 2 * i);
    PulseAt(c, 2 * RampSteps + 2 * j);
    assert (2 * RampSteps + 2 * i - 2 * RampSteps) / 2 == i;
    assert (2 * RampSteps + 2 * j - 2 * RampSteps) / 2 == j;
    ScaleMonotone(c.red, up[i], up[j]);
    ScaleMonotone(c.green, up[i], up[j]);
    ScaleMonotone(c.blue, up[i], up[j]);
    ScaleMonotone(c.red, down[j], down[i]);
    ScaleMonotone(c.green, down[j], down[i]);
    ScaleMonotone(c.blue, down[j], down[i]);
  }

  /** The static states write their colour once; an unknown stored value
      writes black once. Each cycle ends with the 100 ms delay. */
  lemma StaticStatesWriteOnce(code: int)
    ensures code == Code(LedOff) ==> CycleTrace(code) == [Duty(Rgb(0, 0, 0)), Delay(CycleDelayMs)]
    ensures code == Code(LedRed) ==> CycleTrace(code) == [Duty(Rgb(8191, 0, 0)), Delay(CycleDelayMs)]
    ensures code == Code(LedGreen) ==> CycleTrace(code) == [Duty(Rgb(0, 8191, 0)), Delay(CycleDelayMs)]
    ensures code == Code(LedBlue) ==> CycleTrace(code) == [Duty(Rgb(0, 0, 8191)), Delay(CycleDelayMs)]
    ensures !(0 <= code < 12) ==> CycleTrace(code) == [Duty(Black), Delay(CycleDelayMs)]
  {
  }

  /** A flashing cycle writes exactly two colours: the colour, then black. */
  lemma FlashWritesTwice(c: Rgb)
    ensures Writes(FlashTrace(c)) == [c, Black]
  {
    calc {
      Writes(FlashTrace(c));
      [c] + Writes(FlashTrace(c)[1..]);
      { assert FlashTrace(c)[1..][1..] == [Duty(Black), Delay(FlashDelayMs)]; }
      [c] + Writes([Duty(Black), Delay(FlashDelayMs)]);
      { assert [Duty(Black), Delay(FlashDelayMs)][1..] == [Delay(FlashDelayMs)]; }
      [c, Black];
    }
  }

  /** A whole flashing cycle, the closing 100 ms delay included, writes the
      colour and then black, and nothing else. */
  lemma FlashCycleWritesTwice(s: LedState, c: Rgb)
    requires StateTrace(s) == FlashTrace(c)
    ensures Writes(CycleTrace(Code(s))) == [c, Black]
  {
    CodeRoundTrip(s);
    assert CycleTrace(Code(s)) == FlashTrace(c) + [Delay(CycleDelayMs)];
    WritesAppend(FlashTrace(c), [Delay(CycleDelayMs)]);
    FlashWritesTwice(c);
    assert [Delay(CycleDelayMs)][1..] == [];
  }

  /** Every value any cycle writes to any channel is a valid 13-bit duty. */
  lemma CycleWritesInRange(code: int, k: nat)
    requires k < |CycleTrace(code)| && CycleTrace(code)[k].Duty?
    ensures InDutyRange(CycleTrace(code)[k].color)
  {
    var body := CycleTrace(code)[..|CycleTrace(code)| - 1];
    assert CycleTrace(code) == body + [Delay(CycleDelayMs)];
    assert k < |body|;
    match FromCode(code)
    case None =>
    case Some(s) =>
      assert body == StateTrace(s);
      match s
      case LedPulsatingRed => PulseWritesBounded(Rgb(8191, 0, 0), k);
      case LedPulsatingGreen => PulseWritesBounded(Rgb(0, 8191, 0), k);
      case LedPulsatingBlue => PulseWritesBounded(Rgb(0, 0, 8191), k);
      case LedPulsatingWhite => PulseWritesBounded(Rgb(8191, 8191, 8191), k);
      case _ =>
  }

  /** The LED task's state: the shared `current_led_state` (stored as the raw
      enumerator value, so that an out-of-range value can be represented) and
      everything written to the PWM channels so far. */
  class Indicator {
    var state: int
    var outputs: seq<Output>

    constructor ()
      ensures state == Code(LedOff) && outputs == []
    {
      state := 0;
      outputs := [];
    }

    /** set_led_color: one duty write to all three channels. */
    method SetLedColor(c: Rgb)
      modifies this`outputs
      ensures outputs == old(outputs) + [Duty(c)]
    {
      outputs := outputs + [Duty(c)];
    }

    /** vTaskDelay. */
    method Wait(ms: nat)
      modifies this`outputs
      ensures outputs == old(outputs) + [Delay(ms)]
    {
      outputs := outputs + [Delay(ms)];
    }

    method FlashLedColor(c: Rgb)
      modifies this`outputs
      ensures outputs == old(outputs) + FlashTrace(c)
    {
      SetLedColor(c);
      Wait(FlashDelayMs);
      SetLedColor(Black);
      Wait(FlashDelayMs);
    }

    /** pulsate_led_color: the rising loop, then the falling loop. */
    method PulsateLedColor(c: Rgb)
      modifies this`outputs
      ensures outputs == old(outputs) + PulseTrace(c)
    {
      RampUp(c);
      RampDown(c);
    }

    /** The first `for` loop of pulsate_led_color: duty 0, 50, ... while it
        does not exceed 8191. */
    method RampUp(c: Rgb)
      modifies this`outputs
      ensures outputs == old(outputs) + Ramp(c, RisingDuties(RampSteps))
    {
      var duty: int := 0;
      ghost var n: nat := 0;
      while duty <= MaxDuty
        invariant n <= RampSteps && duty == PulseStep * n
        invariant outputs == old(outputs) + Ramp(c, RisingDuties(n))
      {
        ghost var before := outputs;
        SetLedColor(ScaleRgb(c, duty));
        Wait(PulseDelayMs);
        assert outputs == before + PulseStepTrace(c, duty);
        RisingRampSnoc(c, n);
        duty := duty + PulseStep;
        n := n + 1;
      }
    }

    /** The second `for` loop: duty 8191, 8141, ... while it is not negative. */
    method RampDown(c: Rgb)
      modifies this`outputs
      ensures outputs == old(outputs) + Ramp(c, FallingDuties(RampSteps))
    {
      var duty: int := MaxDuty;
      ghost var n: nat := 0;
      while duty >= 0
        invariant n <= RampSteps && duty == MaxDuty - PulseStep * n
        invariant outputs == old(outputs) + Ramp(c, FallingDuties(n))
      {
        assert n < RampSteps;
        ghost var before := outputs;
        SetLedColor(ScaleRgb(c, duty));
        Wait(PulseDelayMs);
        assert outputs == before + PulseStepTrace(c, duty);
        FallingRampSnoc(c, n);
        duty := duty - PulseStep;
        n := n + 1;
      }
      assert n == RampSteps;
    }

    /** The body of led_task's switch for a value already read from the
        shared state, followed by the end-of-cycle delay. */
    method Render(code: int)
      modifies this`outputs
      ensures outputs == old(outputs) + CycleTrace(code)
    {
      var read := FromCode(code);
      if read.None? {
        SetLedColor(Black);
      } else {
        ghost var before := outputs;
        match read.value
        case LedOff => SetLedColor(Rgb(0, 0, 0));
        case LedRed => SetLedColor(Rgb(8191, 0, 0));
        case LedGreen => SetLedColor(Rgb(0, 8191, 0));
        case LedBlue => SetLedColor(Rgb(0, 0, 8191));
        case LedFlashingRed => FlashLedColor(Rgb(8191, 0, 0));
        case LedFlashingGreen => FlashLedColor(Rgb(0, 8191, 0));
        case LedFlashingBlue => FlashLedColor(Rgb(0, 0, 8191));
        case LedFlashingWhite => FlashLedColor(Rgb(8191, 8191, 8191));
        case LedPulsatingRed => PulsateLedColor(Rgb(8191, 0, 0));
        case LedPulsatingGreen => PulsateLedColor(Rgb(0, 8191, 0));
        case LedPulsatingBlue => PulsateLedColor(Rgb(0, 0, 8191));
        case LedPulsatingWhite => PulsateLedColor(Rgb(8191, 8191, 8191));
        assert outputs == before + StateTrace(read.value);
      }
      Wait(CycleDelayMs);
    }

    /** One iteration of led_task: the shared state is read once, at the top. */
    method RenderCycle()
      modifies this`outputs
      ensures state == old(state)
      ensures outputs == old(outputs) + CycleTrace(state)
    {
      var snapshot := state;
      Render(snapshot);
    }
  }
}
