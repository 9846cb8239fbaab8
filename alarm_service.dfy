/** The alarm service of libraries/UPnP/AlarmService.cpp: an output state
    machine whose pin comes from the service's configuration. */
module Alarm {
  import opened Text
  import opened Gpio
  import opened Config

  datatype AlarmState = ALARM_STATE_INVALID | ALARM_STATE_OFF | ALARM_STATE_ALARM | ALARM_STATE_ON | ALARM_STATE_END

  const ALARM_DEFAULT_PIN: int := 0

  /** The items `begin` configures the service with: an unlock code and
      empty mail addresses, then the terminating NULL. */
  function AlarmItems(): (list: seq<Option<ConfigurationItem>>)
    ensures None in list
  {
    [Some(StringItem("code", "1234")), Some(StringItem("from", "")), Some(StringItem("to", "")), None]
  }

  /** No item is called "pin" in any case: the names differ in length. */
  lemma NoPinItem()
    ensures ListedItems(AlarmItems()) == [StringItem("code", "1234"), StringItem("from", ""), StringItem("to", "")]
    ensures FindItem(AlarmItems(), 3, "pin").None?
  {
    var l := AlarmItems();
    assert l[1..][1..][1..] == [None];
    assert !EqualsIgnoreCase("pin", l[0].value.name);
    assert !EqualsIgnoreCase("pin", l[1].value.name);
    assert !EqualsIgnoreCase("pin", l[2].value.name);
  }

  /** Slots holding the alarm items give no "pin" for any count up to
      theirs. */
  lemma NoPinFound(slots: seq<Option<ConfigurationItem>>, n: nat)
    requires |slots| >= 3 && slots[..3] == AlarmItems()[..3] && n <= 3
    ensures forall i :: 0 <= i < n ==> slots[i].Some?
    ensures FindItem(slots, n, "pin").None?
  {
    NoPinItem();
    assert forall i :: 0 <= i < 3 ==> slots[i] == slots[..3][i];
    FindItemSamePrefix(slots, AlarmItems(), 3, "pin");
  }

  /** The level one `periodic` writes, if any: high for ALARM and ON, low
      for OFF, nothing otherwise. */
  function PeriodicLevel(state: AlarmState): (r: Option<Level>)
    ensures r == Some(HIGH) <==> state == ALARM_STATE_ALARM || state == ALARM_STATE_ON
    ensures r == Some(LOW) <==> state == ALARM_STATE_OFF
  {
    match state
    case ALARM_STATE_ALARM => Some(HIGH)
    case ALARM_STATE_ON => Some(HIGH)
    case ALARM_STATE_OFF => Some(LOW)
    case _ => None
  }

  /** The configuration step of `begin`: the "Alarm" configuration is built
      from `AlarmItems`, keeping the count `heapCount` its fresh storage
      held, and the pin is read from its "pin" item, which gives 0. */
  method ConfigureAlarm(heapCount: nat) returns (c: Configuration, pin: int)
    requires heapCount <= 3
    ensures fresh(c) && c.name == "Alarm" && c.Valid()
    ensures c.Stored() == ListedItems(AlarmItems()) && c.nitems == heapCount
    ensures pin == 0
  {
    NoPinItem();
    c := new Configuration("Alarm", AlarmItems(), heapCount);
    NoPinFound(c.items[..], heapCount);
    pin := c.GetValue(Some("pin"));
  }

  class AlarmService {
    var config: Configuration?
    var alarmpin: int
    var state: AlarmState
    var count: int
    var passive: int
    var active: int
    /** The pins `pinMode(pin, OUTPUT)` has been called on. */
    var outputs: seq<int>
    /** Every `digitalWrite`, in order. */
    var writes: seq<PinWrite>

    /** A statically allocated service: its fields start at zero, so the
        state is ALARM_STATE_INVALID until the constructor's call of
        `begin`, which finds no "pin" item and so drives pin 0.
        `heapCount` is what the heap held where `begin`'s configuration
        keeps its item count. */
    constructor (heapCount: nat)
      requires heapCount <= 3
      ensures state == ALARM_STATE_OFF && alarmpin == ALARM_DEFAULT_PIN
      ensures outputs == [0] && writes == []
      ensures count == 0 && active == 0 && passive == 0
    {
      config := null;
      alarmpin := 0;
      state := ALARM_STATE_INVALID;
      count, passive, active := 0, 0, 0;
      outputs := [];
      writes := [];
      new;
      Begin(heapCount);
    }

    /** `begin`: only the first call after construction does anything; it
        builds the configuration and reads the pin from its "pin" item,
        which it does not list. The configuration's constructor leaves its
        count as `heapCount`, whatever the fresh storage held; for every
        count up to the number of items the lookup finds nothing. */
    method Begin(heapCount: nat)
      requires heapCount <= 3
      modifies this
      ensures old(state) != ALARM_STATE_INVALID ==>
        state == old(state) && alarmpin == old(alarmpin) && outputs == old(outputs)
      ensures old(state) == ALARM_STATE_INVALID ==>
        state == ALARM_STATE_OFF && alarmpin == 0 && outputs == old(outputs) + [0]
        && config != null && fresh(config) && config.name == "Alarm"
        && config.Valid() && config.Stored() == ListedItems(AlarmItems())
        && config.nitems == heapCount
      ensures count == old(count) && active == old(active) && passive == old(passive)
      ensures writes == old(writes)
    {
      if state != ALARM_STATE_INVALID {
        return;
      }
      var c, pin := ConfigureAlarm(heapCount);
      config, alarmpin, outputs, state := c, pin, outputs + [pin], ALARM_STATE_OFF;
    }

    function GetState(): AlarmState
      reads this
    {
      state
    }

    /** `SetState`: the next `GetState` returns the state set. */
    method SetState(s: AlarmState)
      modifies this
      ensures GetState() == s
      ensures count == old(count) && active == old(active) && passive == old(passive)
      ensures writes == old(writes) && outputs == old(outputs) && alarmpin == old(alarmpin)
    {
      state := s;
    }

    /** `setPeriod`: stored only; `periodic` has no blinking state to use
        it. */
    method SetPeriod(active: int, passive: int)
      modifies this
      ensures this.active == active && this.passive == passive && count == 0
      ensures state == old(state) && writes == old(writes) && outputs == old(outputs)
      ensures alarmpin == old(alarmpin)
    {
      this.active := active;
      this.passive := passive;
      this.count := 0;
    }

    method Periodic()
      modifies this
      ensures var level := PeriodicLevel(state);
        writes == old(writes) + (if level.Some? then [PinWrite(alarmpin, level.value)] else [])
      ensures state == old(state) && alarmpin == old(alarmpin) && outputs == old(outputs)
      ensures count == old(count) && active == old(active) && passive == old(passive)
    {
      match state
      case ALARM_STATE_ALARM =>
        writes := writes + [PinWrite(alarmpin, HIGH)];
      case ALARM_STATE_ON =>
        writes := writes + [PinWrite(alarmpin, HIGH)];
      case ALARM_STATE_OFF =>
        writes := writes + [PinWrite(alarmpin, LOW)];
      case _ =>
    }
  }
}
