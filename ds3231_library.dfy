/** The DS3231 driver of libraries/UPnP/DS3231.cpp: every operation is
    guarded by `inited`, which `begin` sets from up to four bus probes. */
module RtcLibrary {
  import opened Text
  import opened Rtc

  /** How many probes `begin` makes: the second always, the third and fourth
      only while the previous one failed. */
  function ProbesMade(status: seq<byte>): (k: nat)
    requires |status| == 4
    ensures 2 <= k <= 4
    ensures k > 2 <==> status[1] != 0
    ensures k > 3 <==> status[1] != 0 && status[2] != 0
  {
    if status[1] == 0 then 2 else if status[2] == 0 then 3 else 4
  }

  /** `inited` after `begin`: 1 when one of the last three probes succeeds,
      -1 when all of them fail. */
  function BeginOutcome(status: seq<byte>): (inited: int)
    requires |status| == 4
    ensures inited == 1 || inited == -1
    ensures inited == 1 <==> exists i :: 1 <= i < 4 && status[i] == 0
  {
    if status[1] == 0 || status[2] == 0 || status[3] == 0 then 1 else -1
  }

  /** The result of the first probe is overwritten before it is looked at. */
  lemma FirstProbeIgnored(status: seq<byte>, other: byte)
    requires |status| == 4
    ensures BeginOutcome(status[0 := other]) == BeginOutcome(status)
    ensures ProbesMade(status[0 := other]) == ProbesMade(status)
  {
  }

  /** `k` empty transmissions: a probe writes no byte. */
  function Probes(k: nat): (p: seq<seq<byte>>)
    ensures |p| == k && forall i :: 0 <= i < k ==> p[i] == []
  {
    if k == 0 then [] else Probes(k - 1) + [[]]
  }

  class DS3231 {
    /** 0 before `begin`, 1 when the chip answered, -1 when it did not. */
    var inited: int
    const wire: TwoWire

    constructor (wire: TwoWire)
      ensures inited == 0 && this.wire == wire
    {
      inited := 0;
      this.wire := wire;
    }

    /** Probes the chip; `status` holds what each probe's
        `endTransmission` would report. */
    method Begin(status: seq<byte>)
      requires |status| == 4
      modifies this, wire
      ensures inited == BeginOutcome(status)
      ensures wire.transmissions == old(wire.transmissions) + Probes(ProbesMade(status))
    {
      var e := wire.Transmit([], status[0]);
      e := wire.Transmit([], status[1]);
      if e != 0 {
        e := wire.Transmit([], status[2]);
        if e != 0 {
          e := wire.Transmit([], status[3]);
          if e != 0 {
            inited := -1;
            assert Probes(4) == [[], [], [], []];
            return;
          }
          assert Probes(4) == [[], [], [], []];
        } else {
          assert Probes(3) == [[], [], []];
        }
      } else {
        assert Probes(2) == [[], []];
      }
      inited := 1;
    }

    /** `ReadRange`: status 1 and nothing read or sent before a successful
        `begin`. */
    method ReadRange(addr: byte, values: array<byte>, n: byte, status: byte, incoming: seq<byte>)
      returns (e: byte)
      requires n <= values.Length && n <= |incoming|
      modifies wire, values
      ensures inited <= 0 ==>
        e == 1 && values[..] == old(values[..]) && wire.transmissions == old(wire.transmissions)
      ensures inited > 0 ==> wire.transmissions == old(wire.transmissions) + [[addr]]
      ensures inited > 0 && status != 0 ==> e == status && values[..] == old(values[..])
      ensures inited > 0 && status == 0 ==> e == 0 && values[..] == incoming[..n] + old(values[n..])
    {
      if inited <= 0 {
        return 1;
      }
      e := ReadRegisters(wire, addr, values, n, status, incoming);
    }

    /** `ReadRTC`: status 4 and `tm` untouched before a successful `begin`;
        otherwise the seven time registers are read into a local buffer whose
        prior contents are `stale`, decoded into `tm`, and the read's status
        returned. */
    method ReadRTC(tm: Tm, status: byte, incoming: seq<byte>, stale: seq<byte>) returns (e: byte, t: Tm)
      requires |incoming| >= 7 && |stale| == 7
      modifies wire
      ensures inited <= 0 ==> e == 4 && t == tm && wire.transmissions == old(wire.transmissions)
      ensures inited > 0 ==>
        e == status && wire.transmissions == old(wire.transmissions) + [[0]]
        && t == DecodeTime(tm, if status == 0 then incoming[..7] else stale)
    {
      if inited <= 0 {
        return 4, tm;
      }
      var values := new byte[7](i requires 0 <= i < 7 => stale[i]);
      assert values[..] == stale;
      e := ReadRange(0, values, 7, status, incoming);
      if status == 0 {
        assert values[..] == incoming[..7];
      }
      t := DecodeTime(tm, values[..]);
    }

    /** `SetRTC`: nothing before a successful `begin`; otherwise one
        transmission of the seconds register's address and the seven time
        registers, the year byte as `dec2bcd(tm_year - 100)` for every year.
        `tmnow` is `localtime(now)`, and `status` what the transmission
        reports, which is only printed. */
    method SetRTC(tmnow: Tm, status: byte)
      modifies wire
      ensures inited <= 0 ==> wire.transmissions == old(wire.transmissions)
      ensures inited > 0 ==>
        wire.transmissions == old(wire.transmissions) + [[DS3232_ADDR_RTC_SECONDS] + AsWrittenTimeRegisters(tmnow)]
    {
      if inited <= 0 {
        return;
      }
      var bytes := [DS3232_ADDR_RTC_SECONDS] + AsWrittenTimeRegisters(tmnow);
      var werror := wire.Transmit(bytes, status);
    }

    /** `GetTemperature`: nothing before a successful `begin`; otherwise the
        two temperature registers from 0x11, as 256ths of a degree (the
        source prints them as a float). */
    method GetTemperature(status: byte, incoming: seq<byte>, stale: seq<byte>) returns (reading: Option<int>)
      requires |incoming| >= 2 && |stale| == 4
      modifies wire
      ensures inited <= 0 ==> reading.None? && wire.transmissions == old(wire.transmissions)
      ensures inited > 0 ==>
        wire.transmissions == old(wire.transmissions) + [[0x11]]
        && var v := if status == 0 then incoming[..2] else stale[..2];
        reading == Some((v[0] as int) * 256 + v[1])
    {
      var values := new byte[4](i requires 0 <= i < 4 => stale[i]);
      if inited <= 0 {
        return None;
      }
      var error := ReadRange(0x11, values, 2, status, incoming);
      reading := Some((values[0] as int) * 256 + values[1]);
    }
  }

  /** A clock set from a representable time reads back that time, once
      `begin` has found the chip and the chip returns what it was sent,
      except for the year before 2000, which comes back as
      `AsWrittenYearRead` gives it and so always differs. */
  method SetThenRead(wire: TwoWire, probes: seq<byte>, now: Tm, into: Tm, stale: seq<byte>)
    returns (e: byte, t: Tm)
    requires |probes| == 4 && probes[3] == 0 && Representable(now) && |stale| == 7
    modifies wire
    ensures e == 0 && t == now.(wday := into.wday, year := AsWrittenYearRead(now.year))
    ensures now.year > 99 ==> t == now.(wday := into.wday)
    ensures now.year <= 99 ==> t.year != now.year
  {
    var rtc := new DS3231(wire);
    rtc.Begin(probes);
    rtc.SetRTC(now, 0);
    var sent := rtc.wire.transmissions[|rtc.wire.transmissions| - 1];
    e, t := rtc.ReadRTC(into, 0, sent[1..], stale);
    assert sent[1..] == AsWrittenTimeRegisters(now);
    AsWrittenRoundTrip(now, into);
  }
}
