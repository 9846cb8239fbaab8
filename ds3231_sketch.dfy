/** The DS3231 driver of UPnP/DS3231.cpp: the same registers as the library
    driver, with no `inited` guard and a `begin` that does nothing. */
module RtcSketch {
  import opened Text
  import opened Rtc

  class DS3231 {
    const wire: TwoWire

    constructor (wire: TwoWire)
      ensures this.wire == wire
    {
      this.wire := wire;
    }

    /** `ReadRange`: the address goes out; the `n` bytes the chip returns
        land in `values` on success, and `values` is untouched on failure. */
    method ReadRange(addr: byte, values: array<byte>, n: byte, status: byte, incoming: seq<byte>)
      returns (e: byte)
      requires n <= values.Length && n <= |incoming|
      modifies wire, values
      ensures wire.transmissions == old(wire.transmissions) + [[addr]]
      ensures status != 0 ==> e == status && values[..] == old(values[..])
      ensures status == 0 ==> e == 0 && values[..] == incoming[..n] + old(values[n..])
    {
      e := ReadRegisters(wire, addr, values, n, status, incoming);
    }

    /** `ReadRTC`: reads the seven time registers into a local buffer whose
        prior contents are `stale`, decodes them into `tm` and returns the
        read's status. */
    method ReadRTC(tm: Tm, status: byte, incoming: seq<byte>, stale: seq<byte>) returns (e: byte, t: Tm)
      requires |incoming| >= 7 && |stale| == 7
      modifies wire
      ensures e == status && wire.transmissions == old(wire.transmissions) + [[0]]
      ensures t == DecodeTime(tm, if status == 0 then incoming[..7] else stale)
    {
      var values := new byte[7](i requires 0 <= i < 7 => stale[i]);
      assert values[..] == stale;
      e := ReadRange(0, values, 7, status, incoming);
      if status == 0 {
        assert values[..] == incoming[..7];
      }
      t := DecodeTime(tm, values[..]);
    }

    /** `SetRTC`: one transmission of the seconds register's address and the
        seven time registers of `tmnow`, which is `localtime(now)`, the year
        byte as `dec2bcd(tm_year - 100)` for every year. */
    method SetRTC(tmnow: Tm, status: byte)
      modifies wire
      ensures wire.transmissions == old(wire.transmissions) + [[DS3232_ADDR_RTC_SECONDS] + AsWrittenTimeRegisters(tmnow)]
    {
      var bytes := [DS3232_ADDR_RTC_SECONDS] + AsWrittenTimeRegisters(tmnow);
      var werror := wire.Transmit(bytes, status);
    }

    /** `GetTemperature`: the two temperature registers from 0x11, as 256ths
        of a degree (the source prints them as a float). */
    method GetTemperature(status: byte, incoming: seq<byte>, stale: seq<byte>) returns (reading: int)
      requires |incoming| >= 2 && |stale| == 4
      modifies wire
      ensures wire.transmissions == old(wire.transmissions) + [[0x11]]
      ensures var v := if status == 0 then incoming[..2] else stale[..2];
        reading == (v[0] as int) * 256 + v[1]
    {
      var values := new byte[4](i requires 0 <= i < 4 => stale[i]);
      var error := ReadRange(0x11, values, 2, status, incoming);
      reading := (values[0] as int) * 256 + values[1];
    }
  }
}
