/** The LED service of UPnP/LEDService.cpp: an output state machine driven
    by `periodic`, with a blink counter for the blinking state. */
module Led {
  import opened Gpio

  /** The states, first the one a statically allocated service starts in
      before `begin`. */
  datatype LEDState = LED_STATE_INVALID | LED_STATE_OFF | LED_STATE_ALARM | LED_STATE_ON | LED_STATE_BLINK

  /** The LED's pin (GPIO0). */
  const LedPin: int := 0

  /** One `periodicBlink`: the counter advances; reaching `active` turns the
      LED off, reaching `active + passive` turns it on and restarts the
      count. The result is the new count and the levels written. */
  function BlinkStep(count: int, active: int, passive: int): (r: (int, seq<Level>))
    ensures r.1 == (if count + 1 == active then [LOW] else [])
                   + (if count + 1 == active + passive then [HIGH] else [])
    ensures r.0 == (if count + 1 == active + passive then 0 else count + 1)
  {
    var c := count + 1;
    var off := if c == active then [LOW] else [];
    if c == active + passive then (0, off + [HIGH]) else (c, off)
  }

  /** A count inside the cycle stays inside it. */
  lemma BlinkStaysInCycle(count: int, active: int, passive: int)
    requires 0 <= count < active + passive
    ensures 0 <= BlinkStep(count, active, passive).0 < active + passive
  {
  }

  /** `k` blink steps from `count`: the final count and every level written. */
  function BlinkRun(count: int, active: int, passive: int, k: nat): (int, seq<Level>)
  {
    if k == 0 then (count, [])
    else
      var (c, w) := BlinkRun(count, active, passive, k - 1);
      var (c2, w2) := BlinkStep(c, active, passive);
      (c2, w + w2)
  }

  /** Before `active` steps nothing is written. */
  lemma {:induction false} BlinkQuiet(active: int, passive: int, k: nat)
    requires 0 <= passive && k < active
    ensures BlinkRun(0, active, passive, k) == (k, [])
  {
    if k > 0 {
      BlinkQuiet(active, passive, k - 1);
    }
  }

  /** From `active` steps until the cycle ends the LED stays off. */
  lemma {:induction false} BlinkDark(active: int, passive: int, k: nat)
    requires 0 < active && active <= k < active + passive
    ensures BlinkRun(0, active, passive, k) == (k, [LOW])
  {
    if k == active {
      BlinkQuiet(active, passive, k - 1);
      assert BlinkStep(k - 1, active, passive) == (k, [LOW]);
      assert [] + [LOW] == [LOW];
    } else {
      BlinkDark(active, passive, k - 1);
      assert BlinkStep(k - 1, active, passive) == (k, []);
      assert [LOW] + [] == [LOW];
    }
  }

  /** After `setPeriod(active, passive)` one full cycle of `active + passive`
      blink steps turns the LED off once, then on once, and returns the
      counter to 0; with no passive time both happen on the same step. */
  lemma {:induction false} BlinkCycle(active: int, passive: int)
    requires 0 < active && 0 <= passive
    ensures BlinkRun(0, active, passive, active + passive) == (0, [LOW, HIGH])
  {
    if passive == 0 {
      BlinkQuiet(active, passive, active - 1);
      assert [LOW] + [HIGH] == [LOW, HIGH];
      assert BlinkStep(active - 1, active, passive) == (0, [LOW, HIGH]);
      assert [] + [LOW, HIGH] == [LOW, HIGH];
    } else {
      BlinkDark(active, passive, active + passive - 1);
      assert [] + [HIGH] == [HIGH];
      assert BlinkStep(active + passive - 1, active, passive) == (0, [HIGH]);
      assert [LOW] + [HIGH] == [LOW, HIGH];
    }
  }

  /** What one `periodic` does: the new count and the levels written. */
  function PeriodicEffect(state: LEDState, count: int, active: int, passive: int): (r: (int, seq<Level>))
    ensures state != LED_STATE_BLINK ==> r.0 == count
    ensures state == LED_STATE_ALARM || state == LED_STATE_ON <==> r.1 == [HIGH] && state != LED_STATE_BLINK
    ensures state == LED_STATE_OFF <==> r.1 == [LOW] && state != LED_STATE_BLINK
    ensures state == LED_STATE_INVALID ==> r.1 == []
  {
    match state
    case LED_STATE_ALARM => (count, [HIGH])
    case LED_STATE_ON => (count, [HIGH])
    case LED_STATE_BLINK => BlinkStep(count, active, passive)
    case LED_STATE_OFF => (count, [LOW])
    case LED_STATE_INVALID => (count, [])
  }

  /** The levels written to the LED's pin. */
  function Writes(levels: seq<Level>): (w: seq<PinWrite>)
    ensures |w| == |levels| && forall i :: 0 <= i < |w| ==> w[i] == PinWrite(LedPin, levels[i])
  {
    if levels == [] then [] else Writes(levels[..|levels| - 1]) + [PinWrite(LedPin, levels[|levels| - 1])]
  }

  class LEDService {
    var state: LEDState
    var count: int
    var active: int
    var passive: int
    /** Whether `pinMode(led, OUTPUT)` has run. */
    var pinIsOutput: bool
    /** Every `digitalWrite`, in order. */
    var writes: seq<PinWrite>

    /** A statically allocated service: its fields start at zero, so the
        state is LED_STATE_INVALID until the constructor's call of `begin`. */
    constructor ()
      ensures state == LED_STATE_OFF && pinIsOutput && writes == []
      ensures count == 0 && active == 0 && passive == 0
    {
      state := LED_STATE_INVALID;
      count, active, passive := 0, 0, 0;
      pinIsOutput := false;
      writes := [];
      new;
      Begin();
    }

    /** `begin`: only the first call after construction does anything. */
    method Begin()
      modifies this
      ensures old(state) != LED_STATE_INVALID ==>
        state == old(state) && pinIsOutput == old(pinIsOutput)
      ensures old(state) == LED_STATE_INVALID ==> state == LED_STATE_OFF && pinIsOutput
      ensures count == old(count) && active == old(active) && passive == old(passive)
      ensures writes == old(writes)
    {
      if state != LED_STATE_INVALID {
        return;
      }
      state := LED_STATE_OFF;
      pinIsOutput := true;
      state := LED_STATE_OFF;
    }

    function GetState(): LEDState
      reads this
    {
      state
    }

    /** `SetState`: the next `GetState` returns the state set. */
    method SetState(s: LEDState)
      modifies this
      ensures GetState() == s
      ensures count == old(count) && active == old(active) && passive == old(passive)
      ensures writes == old(writes) && pinIsOutput == old(pinIsOutput)
    {
      state := s;
    }

    /** `setPeriod`: the new on and off times, counted from the start of a
        cycle. */
    method SetPeriod(active: int, passive: int)
      modifies this
      ensures this.active == active && this.passive == passive && count == 0
      ensures state == old(state) && writes == old(writes) && pinIsOutput == old(pinIsOutput)
    {
      this.active := active;
      this.passive := passive;
      this.count := 0;
    }

    method Periodic()
      modifies this
      ensures var (c, levels) := PeriodicEffect(old(state), old(count), active, passive);
        count == c && writes == old(writes) + Writes(levels)
      ensures state == old(state) && active == old(active) && passive == old(passive)
      ensures pinIsOutput == old(pinIsOutput)
    {
      match state
      case LED_STATE_ALARM =>
        writes := writes + [PinWrite(LedPin, HIGH)];
      case LED_STATE_ON =>
        writes := writes + [PinWrite(LedPin, HIGH)];
      case LED_STATE_BLINK =>
        PeriodicBlink();
      case LED_STATE_OFF =>
        writes := writes + [PinWrite(LedPin, LOW)];
      case LED_STATE_INVALID =>
    }

    method PeriodicBlink()
      modifies this
      ensures var (c, levels) := BlinkStep(old(count), active, passive);
        count == c && writes == old(writes) + Writes(levels)
      ensures state == old(state) && active == old(active) && passive == old(passive)
      ensures pinIsOutput == old(pinIsOutput)
    {
      count := count + 1;
      if count == active {
        writes := writes + [PinWrite(LedPin, LOW)];
      }
      if count == active + passive {
        count := 0;
        writes := writes + [PinWrite(LedPin, HIGH)];
      }
    }
  }
}
