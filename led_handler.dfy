/** The addressable LED strip and its event task (main/led_handler.c). */
module LedHandler {
  import opened Wrappers
  import opened Rtos

  /** Event values of main/led_handler.h. */
  const LedOnEvent: int := 1
  /** The strip's max_leds. */
  const MaxLeds: nat := 10
  /** Capacity of led_event_queue. */
  const EventQueueCapacity: nat := 10
  /** How long the strip stays lit for one event. */
  const LitDelayMs: nat := 1000

  /** One pixel in 8-bit R, G, B. */
  datatype Pixel = Pixel(r: nat, g: nat, b: nat)

  const Red := Pixel(255, 0, 0)
  const Dark := Pixel(0, 0, 0)

  /** What the strip driver sends to the LEDs, and the task's delays. */
  datatype StripOp = Refresh(frame: seq<Pixel>) | Delay(ms: nat) | Clear

  /** The frame shown for an LED_ON event: every pixel red. */
  function AllRed(): (f: seq<Pixel>)
    ensures |f| == MaxLeds && forall i :: 0 <= i < |f| ==> f[i] == Red
  {
    seq(MaxLeds, _ => Red)
  }

  function AllDark(): (f: seq<Pixel>)
    ensures |f| == MaxLeds && forall i :: 0 <= i < |f| ==> f[i] == Dark
  {
    seq(MaxLeds, _ => Dark)
  }

  /** The strip handle with its pixel buffer, and the event queue. */
  class LedHandler {
    var pixels: array<Pixel>
    var ops: seq<StripOp>
    var events: Queue<int>

    ghost predicate Valid()
      reads this, events
    {
      pixels.Length == MaxLeds && events.capacity == EventQueueCapacity && events.Valid()
    }

    /** led_handler_init: a 10-pixel strip and a queue of 10 events. */
    constructor Init()
      ensures Valid() && fresh(pixels) && fresh(events)
      ensures pixels[..] == AllDark() && ops == [] && events.items == []
    {
      pixels := new Pixel[MaxLeds](_ => Dark);
      ops := [];
      events := new Queue<int>(EventQueueCapacity);
    }

    /** led_strip_set_pixel: the driver rejects an index outside the strip. */
    method SetPixel(index: nat, p: Pixel) returns (ok: bool)
      modifies pixels
      ensures ok <==> index < pixels.Length
      ensures ok ==> pixels[..] == old(pixels[..])[index := p]
      ensures !ok ==> pixels[..] == old(pixels[..])
    {
      ok := index < pixels.Length;
      if ok {
        pixels[index] := p;
      }
    }

    /** led_strip_clear: every pixel off, and the dark frame sent. */
    method ClearStrip()
      requires pixels.Length == MaxLeds
      modifies pixels, this`ops
      ensures pixels[..] == AllDark()
      ensures ops == old(ops) + [Clear]
    {
      forall i | 0 <= i < pixels.Length {
        pixels[i] := Dark;
      }
      ops := ops + [Clear];
    }

    /** One iteration of led_handling_task: take the oldest event; for LED_ON
        light pixels 0..9 red, show them, wait a second and clear the strip.
        Any other event, or an empty queue, leaves the strip untouched. */
    method HandleNextEvent() returns (event: Option<int>)
      requires Valid()
      modifies pixels, this`ops, events
      ensures Valid()
      ensures event == (if old(events.items) == [] then None else Some(old(events.items)[0]))
      ensures events.items == if old(events.items) == [] then [] else old(events.items)[1..]
      ensures event == Some(LedOnEvent) ==>
        pixels[..] == AllDark() && ops == old(ops) + [Refresh(AllRed()), Delay(LitDelayMs), Clear]
      ensures event != Some(LedOnEvent) ==>
        pixels[..] == old(pixels[..]) && ops == old(ops)
    {
      event := events.TryReceive();
      if event == Some(LedOnEvent) {
        for i := 0 to MaxLeds
          modifies pixels
          invariant forall j :: 0 <= j < i ==> pixels[j] == Red
        {
          var ok := SetPixel(i, Red);
          assert ok;
        }
        assert pixels[..] == AllRed();
        ops := ops + [Refresh(pixels[..])];
        ops := ops + [Delay(LitDelayMs)];
        ClearStrip();
      }
    }
  }
}
