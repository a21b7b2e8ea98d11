/**
 * The tick-driven outputs of the MIDI interface: the LED blinker on timer 1,
 * the button debouncer on timer 2 and the output pulse on timer 3, with the
 * pins of GPIO port A that are driven high. The pin numbers come from the
 * board header, which is not part of this model; the pins are named here
 * instead, so that a pin mask is a set of pins.
 *
 * The counters are stated as pure step functions (BlinkTick, ButtonTick);
 * the class Io holds the module's globals and its handlers are proved
 * against those functions.
 */
module Io {
  import opened Defines
  import opened AppTask
  import opened AppEvents

  /** `enum led_e`: red is 0x01, blue 0x02, purple both. */
  datatype Led = Red | Blue | Purple

  /** `enum gpio_e`: the single output. */
  datatype Gpio = Out

  /** The three timers whose period-elapsed interrupt io.c handles. */
  datatype Timer = Tim1 | Tim2 | Tim3

  /** The output pins of port A that io.c drives: `RED_Pin`, `BLUE_Pin` and `OUT_Pin`. */
  datatype Pin = RedPin | BluePin | OutPin

  predicate HasRed(l: Led) { l == Red || l == Purple }
  predicate HasBlue(l: Led) { l == Blue || l == Purple }

  /** The pins of an LED selection, `(led & LED_RED ? RED_Pin : 0) | (led & LED_BLUE ? BLUE_Pin : 0)`. */
  function LedPins(l: Led): (m: set<Pin>)
    ensures OutPin !in m && m != {}
    ensures RedPin in m <==> HasRed(l)
    ensures BluePin in m <==> HasBlue(l)
  {
    (if HasRed(l) then {RedPin} else {}) + (if HasBlue(l) then {BluePin} else {})
  }

  /** `HAL_GPIO_WritePin`: drive the pins of `mask` high or low; the others keep their level. */
  function WritePin(high: set<Pin>, mask: set<Pin>, on: bool): (r: set<Pin>)
    ensures forall x :: x in mask ==> (x in r <==> on)
    ensures forall x :: x !in mask ==> (x in r <==> x in high)
  {
    if on then high + mask else high - mask
  }

  /** `HAL_GPIO_TogglePin`: invert the pins of `mask`. */
  function TogglePin(high: set<Pin>, mask: set<Pin>): (r: set<Pin>)
    ensures forall x :: x in mask ==> (x in r <==> x !in high)
    ensures forall x :: x !in mask ==> (x in r <==> x in high)
  {
    (high - mask) + (mask - high)
  }

  /** `_blinkCount`, `_blinkDuration` and `_blinkDurationCount`. */
  datatype Blink = Blink(count: int, duration: int, durationCount: int)

  /** What a timer-1 tick does to the LED pins. */
  datatype BlinkAction = Keep | Toggle | Off

  /** Blinking forever is a count of 100, which a tick keeps. */
  const Forever := 100

  /** The counters `led_blink` loads: once or forever, fast (1 tick) or slow (5 ticks). */
  function BlinkStart(once: bool, fast: bool): (b: Blink)
    ensures b.durationCount == 0 && 1 <= b.duration
    ensures b.count == 1 <==> once
    ensures b.count == Forever <==> !once
  {
    Blink(if once then 1 else Forever, if fast then 1 else 5, 0)
  }

  /**
   * One tick of timer 1: count the tick; once the duration is reached,
   * restart the duration count and take one step of the blink count,
   * which stays at 100 and otherwise goes down. At 0 the LED goes off and
   * the timer stops; otherwise the LED toggles.
   */
  function BlinkTick(b: Blink): (r: (Blink, BlinkAction))
    ensures r.1 == Keep <==> b.durationCount + 1 < b.duration
    ensures r.1 == Keep ==> r.0 == b.(durationCount := b.durationCount + 1)
    ensures r.1 != Keep ==> r.0.durationCount == 0 && r.0.duration == b.duration
    ensures r.1 != Keep ==> r.0.count == if b.count >= Forever then Forever else b.count - 1
    ensures r.1 == Off <==> r.1 != Keep && r.0.count == 0
  {
    var c := b.durationCount + 1;
    if c >= b.duration then
      var n := if b.count >= Forever then Forever else b.count - 1;
      (Blink(n, b.duration, 0), if n == 0 then Off else Toggle)
    else
      (b.(durationCount := c), Keep)
  }

  /** `n` ticks of timer 1: the counters after them and the action of each tick. */
  function BlinkRun(b: Blink, n: nat): (r: (Blink, seq<BlinkAction>))
    ensures |r.1| == n
  {
    if n == 0 then (b, [])
    else
      var a := BlinkRun(b, n - 1);
      var t := BlinkTick(a.0);
      (t.0, a.1 + [t.1])
  }

  /** Before the duration is reached a tick only counts: the LED keeps its level. */
  lemma {:induction false} BlinkRunWaits(b: Blink, n: nat)
    requires 0 <= b.durationCount && b.durationCount + n < b.duration
    ensures BlinkRun(b, n).0 == b.(durationCount := b.durationCount + n)
    ensures forall i :: 0 <= i < n ==> BlinkRun(b, n).1[i] == Keep
  {
    if n > 0 {
      BlinkRunWaits(b, n - 1);
    }
  }

  /**
   * A once-blink keeps the LED on for exactly its duration: the first
   * duration - 1 ticks leave it alone and the next one turns it off (and
   * stops the timer), with the blink count at 0.
   */
  lemma OnceBlink(fast: bool)
    ensures var b := BlinkStart(true, fast); var d := b.duration;
      var r := BlinkRun(b, d);
      && (forall i :: 0 <= i < d - 1 ==> r.1[i] == Keep)
      && r.1[d - 1] == Off && r.0.count == 0
  {
    var b := BlinkStart(true, fast);
    BlinkRunWaits(b, b.duration - 1);
  }

  /** Blinking forever never turns the LED off: every tick keeps or toggles it. */
  lemma {:induction false} ForeverBlink(fast: bool, n: nat)
    ensures var r := BlinkRun(BlinkStart(false, fast), n);
      && r.0.count == Forever && r.0.duration == BlinkStart(false, fast).duration
      && 0 <= r.0.durationCount < r.0.duration
      && Off !in r.1
  {
    if n > 0 {
      ForeverBlink(fast, n - 1);
      var a := BlinkRun(BlinkStart(false, fast), n - 1);
      assert BlinkRun(BlinkStart(false, fast), n).1 == a.1 + [BlinkTick(a.0).1];
    }
  }

  /** `_buttonState` (the debounced level) and `_debounceButtonState` (the last level latched). */
  datatype Button = Button(state: bool, latched: bool)

  /** The event a debounced change posts. */
  function ButtonEvent(down: bool): u32
  {
    if down then EventBootDown else EventBootUp
  }

  /**
   * A tick of timer 2: a latched level that differs from the debounced
   * one becomes the debounced level and posts BOOT_DOWN or BOOT_UP.
   */
  function ButtonTick(b: Button): (r: (Button, seq<u32>))
    ensures r.0.latched == b.latched && r.0.state == b.latched
    ensures r.1 == if b.latched != b.state then [ButtonEvent(b.latched)] else []
  {
    if b.latched != b.state then (Button(b.latched, b.latched), [ButtonEvent(b.latched)])
    else (b, [])
  }

  /** What reaches the button logic: an edge interrupt with the pin level read, or a timer-2 tick. */
  datatype ButtonInput = Edge(level: bool) | Tick

  /** One button input: an edge latches the level only; a tick may post one event. */
  function ButtonStep(b: Button, i: ButtonInput): (r: (Button, seq<u32>))
    ensures |r.1| <= 1 && (r.1 != [] ==> i.Tick? && r.0.state == b.latched != b.state)
  {
    match i
    case Edge(level) => (b.(latched := level), [])
    case Tick => ButtonTick(b)
  }

  /** A run of button inputs: the final state and the events posted, in order. */
  function ButtonRun(b: Button, ins: seq<ButtonInput>): (r: (Button, seq<u32>))
    ensures |r.1| <= |ins|
    decreases ins
  {
    if ins == [] then (b, [])
    else
      var x := ButtonStep(b, ins[0]);
      var y := ButtonRun(x.0, ins[1..]);
      (y.0, x.1 + y.1)
  }

  /**
   * Events that alternate from debounced state `s` to `s'`: each one
   * reports the opposite of the state before it.
   */
  predicate Alternates(s: bool, es: seq<u32>, s': bool)
    decreases es
  {
    if es == [] then s' == s else es[0] == ButtonEvent(!s) && Alternates(!s, es[1..], s')
  }

  /**
   * Whatever the edges and ticks, the posted button events alternate
   * DOWN and UP, starting with the opposite of the debounced state and
   * ending at the new one.
   */
  lemma {:induction false} ButtonEventsAlternate(b: Button, ins: seq<ButtonInput>)
    ensures var r := ButtonRun(b, ins); Alternates(b.state, r.1, r.0.state)
    decreases ins
  {
    if ins != [] {
      var x := ButtonStep(b, ins[0]);
      ButtonEventsAlternate(x.0, ins[1..]);
      var y := ButtonRun(x.0, ins[1..]);
      if x.1 != [] {
        assert (x.1 + y.1)[1..] == y.1;
      } else {
        assert x.1 + y.1 == y.1;
      }
    }
  }

  /** Consecutive button events are never the same. */
  lemma {:induction false} AlternatesDiffer(s: bool, es: seq<u32>, s': bool, i: nat)
    requires Alternates(s, es, s') && i + 1 < |es|
    ensures es[i] != es[i + 1]
    decreases es
  {
    if i == 0 {
      assert es[1] == es[1..][0];
    } else {
      AlternatesDiffer(!s, es[1..], s', i - 1);
    }
  }

  /**
   * The globals of io.c together with the port they drive: the pins of
   * GPIO port A that are high, the pins selected for blinking (`_led`)
   * and for the pulse (`_gpio`), and whether each timer runs.
   */
  class Io {
    const bootPin: u16
    const queue: EventQueue

    var high: set<Pin>
    var led: set<Pin>
    var gpio: set<Pin>
    var blinkCount: int
    var blinkDuration: int
    var blinkDurationCount: int
    var buttonState: bool
    var debounceButtonState: bool
    var tim1: bool
    var tim2: bool
    var tim3: bool

    /** The globals' initial values; all timers stopped, all pins low. */
    constructor (boot: u16, q: EventQueue)
      ensures queue == q && bootPin == boot
      ensures high == {} && led == {} && gpio == {}
      ensures Blinker() == Blink(0, 0, 0) && Debounce() == Button(false, false)
      ensures !tim1 && !tim2 && !tim3
    {
      bootPin, queue := boot, q;
      high, led, gpio := {}, {}, {};
      blinkCount, blinkDuration, blinkDurationCount := 0, 0, 0;
      buttonState, debounceButtonState := false, false;
      tim1, tim2, tim3 := false, false, false;
    }

    ghost function Blinker(): Blink
      reads this
    {
      Blink(blinkCount, blinkDuration, blinkDurationCount)
    }

    ghost function Debounce(): Button
      reads this
    {
      Button(buttonState, debounceButtonState)
    }

    /** The level of the output pin. */
    ghost predicate Gate()
      reads this
    {
      OutPin in high
    }

    /**
     * `led_blink`: select the pins, load the counters, turn the pins on and
     * restart timer 1.
     */
    method LedBlink(l: Led, once: bool, fast: bool)
      modifies this
      ensures led == LedPins(l) && tim1
      ensures Blinker() == BlinkStart(once, fast)
      ensures high == WritePin(old(high), led, true)
      ensures Debounce() == old(Debounce()) && gpio == old(gpio) && tim2 == old(tim2) && tim3 == old(tim3)
    {
      led := LedPins(l);
      blinkCount := if once then 1 else Forever;
      blinkDuration := if fast then 1 else 5;
      blinkDurationCount := 0;
      tim1 := false;
      high := WritePin(high, led, true);
      tim1 := true;
    }

    /** `led_stopblink`. */
    method LedStopBlink()
      modifies this
      ensures !tim1
      ensures high == old(high) && led == old(led) && Blinker() == old(Blinker())
      ensures Debounce() == old(Debounce()) && gpio == old(gpio) && tim2 == old(tim2) && tim3 == old(tim3)
    {
      tim1 := false;
    }

    /** `led_set`: drive the selected LED pins; a running blink is not stopped. */
    method LedSet(l: Led, on: bool)
      modifies this
      ensures high == WritePin(old(high), LedPins(l), on)
      ensures led == old(led) && Blinker() == old(Blinker()) && tim1 == old(tim1)
      ensures Debounce() == old(Debounce()) && gpio == old(gpio) && tim2 == old(tim2) && tim3 == old(tim3)
    {
      high := WritePin(high, LedPins(l), on);
    }

    /** `gpio_set`: drive the output pin. */
    method GpioSet(g: Gpio, on: bool)
      modifies this
      ensures high == WritePin(old(high), {OutPin}, on) && (Gate() <==> on)
      ensures led == old(led) && Blinker() == old(Blinker()) && tim1 == old(tim1)
      ensures Debounce() == old(Debounce()) && gpio == old(gpio) && tim2 == old(tim2) && tim3 == old(tim3)
    {
      high := WritePin(high, {OutPin}, on);
    }

    /** `gpio_blink`: raise the output and restart timer 3, which ends the pulse. */
    method GpioBlink(g: Gpio)
      modifies this
      ensures gpio == {OutPin} && tim3 && Gate()
      ensures high == WritePin(old(high), {OutPin}, true)
      ensures led == old(led) && Blinker() == old(Blinker()) && tim1 == old(tim1)
      ensures Debounce() == old(Debounce()) && tim2 == old(tim2)
    {
      gpio := {OutPin};
      tim3 := false;
      high := WritePin(high, gpio, true);
      tim3 := true;
    }

    /**
     * `HAL_GPIO_EXTI_Callback`: on an edge of the boot button, latch the
     * level read from the pin and restart the debounce timer.
     */
    method ExtiCallback(pin: u16, level: bool)
      modifies this
      ensures pin == bootPin ==> Debounce() == ButtonStep(old(Debounce()), Edge(level)).0 && tim2
      ensures pin != bootPin ==> Debounce() == old(Debounce()) && tim2 == old(tim2)
      ensures high == old(high) && led == old(led) && gpio == old(gpio) && Blinker() == old(Blinker())
      ensures tim1 == old(tim1) && tim3 == old(tim3)
    {
      if pin == bootPin {
        debounceButtonState := level;
        tim2 := false;
        tim2 := true;
      }
    }

    /**
     * A blink tick happened: the counters are BlinkTick of the old ones,
     * the selected pins keep, toggle or go off as it says, timer 1 stops
     * at Off, and nothing else changes.
     */
    twostate predicate BlinkTicked()
      reads this
    {
      var r := BlinkTick(old(Blinker()));
      && Blinker() == r.0
      && high == (match r.1 case Keep => old(high) case Toggle => TogglePin(old(high), led)
                               case Off => WritePin(old(high), led, false))
      && tim1 == (old(tim1) && r.1 != Off)
      && led == old(led) && gpio == old(gpio) && Debounce() == old(Debounce())
      && tim2 == old(tim2) && tim3 == old(tim3)
    }

    /**
     * A debounce tick happened: the button is ButtonTick of the old one,
     * timer 2 stops when an event is posted, and nothing else of the
     * module changes.
     */
    twostate predicate DebounceTicked()
      reads this
    {
      var r := ButtonTick(old(Debounce()));
      && Debounce() == r.0
      && tim2 == (old(tim2) && r.1 == [])
      && high == old(high) && led == old(led) && gpio == old(gpio) && Blinker() == old(Blinker())
      && tim1 == old(tim1) && tim3 == old(tim3)
    }

    /** The pulse ended: the pulse pins are low, timer 3 is stopped, nothing else changes. */
    twostate predicate PulseEnded()
      reads this
    {
      && high == WritePin(old(high), gpio, false) && !tim3
      && led == old(led) && gpio == old(gpio) && Blinker() == old(Blinker()) && Debounce() == old(Debounce())
      && tim1 == old(tim1) && tim2 == old(tim2)
    }

    /** The timer-1 branch of `HAL_TIM_PeriodElapsedCallback`: one blink tick. */
    method BlinkElapsed()
      modifies this
      ensures BlinkTicked()
    {
      blinkDurationCount := blinkDurationCount + 1;
      if blinkDurationCount >= blinkDuration {
        blinkDurationCount := 0;
        blinkCount := if blinkCount >= Forever then Forever else blinkCount - 1;
        if blinkCount == 0 {
          high := WritePin(high, led, false);
          tim1 := false;
        } else {
          high := TogglePin(high, led);
        }
      }
    }

    /** The timer-2 branch: a debounced change posts a button event and stops the timer. */
    method DebounceElapsed()
      requires queue.Valid()
      modifies this, queue, queue.queue
      ensures queue.Valid() && DebounceTicked()
      ensures queue.Pending() == PushedAll(old(queue.Pending()), ButtonTick(old(Debounce())).1)
    {
      if debounceButtonState != buttonState {
        buttonState := debounceButtonState;
        queue.Push(if buttonState then EventBootDown else EventBootUp);
        tim2 := false;
        assert [ButtonEvent(buttonState)][..0] == [];
      }
    }

    /** The timer-3 branch: end the pulse. */
    method PulseElapsed()
      modifies this
      ensures PulseEnded()
    {
      high := WritePin(high, gpio, false);
      tim3 := false;
    }

    /** `HAL_TIM_PeriodElapsedCallback`: dispatch on the timer that elapsed. */
    method PeriodElapsed(t: Timer)
      requires queue.Valid()
      modifies this, queue, queue.queue
      ensures queue.Valid()
      ensures t == Tim1 ==> BlinkTicked() && queue.Pending() == old(queue.Pending())
      ensures t == Tim2 ==>
                DebounceTicked() && queue.Pending() == PushedAll(old(queue.Pending()), ButtonTick(old(Debounce())).1)
      ensures t == Tim3 ==> PulseEnded() && queue.Pending() == old(queue.Pending())
    {
      if t == Tim1 {
        BlinkElapsed();
      }
      if t == Tim2 {
        DebounceElapsed();
      }
      if t == Tim3 {
        PulseElapsed();
      }
    }
  }
}
