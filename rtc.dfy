/** The DS3231 real-time clock's time registers as both DS3231 drivers
    (libraries/UPnP/DS3231.cpp and UPnP/DS3231.cpp) read and write them: BCD
    conversion, the register layout, and the two-wire bus the bytes cross. */
module Rtc {
  import opened Text

  /** The bus address of the chip. */
  const DS3232RTC_I2C_ADDR: byte := 0x68
  /** The register address of the seconds, the first time register. */
  const DS3232_ADDR_RTC_SECONDS: byte := 0x00

  /** Conversion of a C `int` to `uint8_t`: the value modulo 256. */
  function ToByte(x: int): (b: byte)
    ensures 0 <= x < 0x100 ==> b == x
  {
    x % 0x100
  }

  /** `dec2bcd`: tens in the high nibble, units in the low one, truncated to
      a byte on return. */
  function Dec2Bcd(n: byte): byte
  {
    ToByte((n / 10) * 16 + n % 10)
  }

  /** `bcd2dec`: `n >> 4` is `n / 16` and `n & 0x0F` is `n % 16`; the result,
      at most 165, fits its byte. */
  function Bcd2Dec(n: byte): byte
  {
    (n / 16) * 10 + n % 16
  }

  /** A byte whose two nibbles are decimal digits. */
  predicate IsBcd(b: byte)
  {
    b / 16 < 10 && b % 16 < 10
  }

  lemma NibbleSplit(a: nat, b: nat)
    requires b < 16
    ensures (a * 16 + b) / 16 == a && (a * 16 + b) % 16 == b
  {
  }

  lemma DigitSplit(a: nat, b: nat)
    requires b < 10
    ensures (a * 10 + b) / 10 == a && (a * 10 + b) % 10 == b
  {
  }

  /** Below 100 a number goes to a BCD byte and back unchanged; the BCD form
      is below 0xA0. */
  lemma {:induction false} BcdRoundTrip(n: byte)
    requires n < 100
    ensures Dec2Bcd(n) < 0xA0 && IsBcd(Dec2Bcd(n)) && Bcd2Dec(Dec2Bcd(n)) == n
  {
    var a, b := n / 10, n % 10;
    assert n == a * 10 + b;
    assert a * 16 + b < 0xA0;
    NibbleSplit(a, b);
  }

  /** Conversely every BCD byte comes back from its decimal value, and only
      those do. */
  lemma {:induction false} DecRoundTrip(b: byte)
    ensures (Bcd2Dec(b) < 100 && Dec2Bcd(Bcd2Dec(b)) == b) <==> IsBcd(b)
  {
    var hi, lo := b / 16, b % 16;
    assert b == hi * 16 + lo;
    if IsBcd(b) {
      DigitSplit(hi, lo);
    } else if Bcd2Dec(b) < 100 && Dec2Bcd(Bcd2Dec(b)) == b {
      BcdRoundTrip(Bcd2Dec(b));
      assert false;
    }
  }

  /** Dec2Bcd keeps a number below 40 below 0x40, and one below 20 below
      0x20: the hour and month bytes leave their flag bits clear. */
  lemma {:induction false} BcdBelow(n: byte)
    requires n < 100
    ensures n < 40 ==> Dec2Bcd(n) < 0x40
    ensures n < 20 ==> Dec2Bcd(n) < 0x20
  {
    var a, b := n / 10, n % 10;
    assert Dec2Bcd(n) == a * 16 + b;
  }

  /** A flag added in bit 7 of a byte below 32 keeps both parts apart. */
  lemma FlagByte(m: byte, flag: bool)
    requires m < 32
    ensures var x := ToByte(m + (if flag then 0x80 else 0));
      x / 128 == (if flag then 1 else 0) && x % 32 == m
  {
  }

  /** The fields of a `struct tm` the drivers touch. */
  datatype Tm = Tm(sec: int, min: int, hour: int, wday: int, mday: int, mon: int, year: int)

  /** `ReadRTC`'s conversion of the seven registers into `tm`: bits 0-5 of the
      hour register as BCD plus 12 when bit 6 is set, the month in bits 0-4,
      the century in bit 7 of the month register. The day-of-week register
      and `tm_wday` are left alone. */
  function DecodeTime(tm: Tm, values: seq<byte>): (t: Tm)
    requires |values| >= 7
    ensures t.wday == tm.wday
    ensures 0 <= t.sec < 166 && 0 <= t.min < 166 && 0 <= t.mday < 166
    ensures 0 <= t.hour < 64 + 12 && 0 <= t.mon < 32 && 0 <= t.year < 266
  {
    var ampm := (values[2] / 64) % 2;
    var century := values[5] / 128;
    tm.(sec := Bcd2Dec(values[0]),
        min := Bcd2Dec(values[1]),
        hour := Bcd2Dec(values[2] % 64) + (if ampm != 0 then 12 else 0),
        mday := Bcd2Dec(values[4]),
        mon := Bcd2Dec(values[5] % 32),
        year := century * 100 + Bcd2Dec(values[6]))
  }

  /** A time the seven registers can carry: `tm_year` counts from 1900 and
      the century bit adds one century. */
  predicate Representable(tm: Tm)
  {
    0 <= tm.sec < 60 && 0 <= tm.min < 60 && 0 <= tm.hour < 24 && 0 <= tm.wday < 7
    && 1 <= tm.mday <= 31 && 0 <= tm.mon < 12 && 0 <= tm.year < 200
  }

  /** The month byte: the BCD month plus 0x80 after 1999. */
  function MonthRegister(tm: Tm): byte
  {
    ToByte(Dec2Bcd(ToByte(tm.mon)) + (if tm.year > 99 then 0x80 else 0))
  }

  /** The year byte as `SetRTC` writes it: `dec2bcd(tm_year - 100)` for every
      year. */
  function AsWrittenYearRegister(tm: Tm): byte
  {
    Dec2Bcd(ToByte(tm.year - 100))
  }

  /** The year byte as evidently intended: the year within its century. */
  function YearRegister(tm: Tm): byte
  {
    Dec2Bcd(ToByte(if tm.year > 99 then tm.year - 100 else tm.year))
  }

  /** The seven time registers in register order (seconds, minutes, hours,
      day of week, date, month, year), with the year byte as evidently
      intended: the reference encoding the round trip holds for. */
  function TimeRegisters(tm: Tm): (r: seq<byte>)
    ensures |r| == 7
  {
    [Dec2Bcd(ToByte(tm.sec)), Dec2Bcd(ToByte(tm.min)), Dec2Bcd(ToByte(tm.hour)),
     Dec2Bcd(ToByte(tm.wday)), Dec2Bcd(ToByte(tm.mday)), MonthRegister(tm), YearRegister(tm)]
  }

  /** The seven bytes `SetRTC` sends after the register address: the same
      registers with the year byte as written, `dec2bcd(tm_year - 100)`. */
  function AsWrittenTimeRegisters(tm: Tm): (r: seq<byte>)
    ensures |r| == 7
  {
    TimeRegisters(tm)[6 := AsWrittenYearRegister(tm)]
  }

  /** The month register carries the month and the century. */
  lemma {:induction false} MonthRegisterFields(tm: Tm)
    requires Representable(tm)
    ensures MonthRegister(tm) / 128 == (if tm.year > 99 then 1 else 0)
    ensures Bcd2Dec(MonthRegister(tm) % 32) == tm.mon
  {
    var mb := ToByte(tm.mon);
    BcdRoundTrip(mb);
    BcdBelow(mb);
    FlagByte(Dec2Bcd(mb), tm.year > 99);
  }

  /** Every representable time written to the registers reads back as
      itself; only the day of week keeps the value of the `tm` it is read
      into. */
  lemma {:induction false} TimeRoundTrip(tm: Tm, into: Tm)
    requires Representable(tm)
    ensures DecodeTime(into, TimeRegisters(tm)) == tm.(wday := into.wday)
  {
    var r := TimeRegisters(tm);
    var t := DecodeTime(into, r);
    FieldRoundTrip(tm.sec);
    assert t.sec == tm.sec;
    FieldRoundTrip(tm.min);
    assert t.min == tm.min;
    FieldRoundTrip(tm.hour);
    BcdBelow(ToByte(tm.hour));
    HourFlagsClear(r[2]);
    assert t.hour == tm.hour;
    FieldRoundTrip(tm.mday);
    assert t.mday == tm.mday;
    MonthRegisterFields(tm);
    assert t.mon == tm.mon;
    FieldRoundTrip(if tm.year > 99 then tm.year - 100 else tm.year);
    assert t.year == tm.year;
  }

  lemma FieldRoundTrip(x: int)
    requires 0 <= x < 100
    ensures Bcd2Dec(Dec2Bcd(ToByte(x))) == x
  {
    BcdRoundTrip(x);
  }

  lemma HourFlagsClear(h: byte)
    requires h < 0x40
    ensures h % 64 == h && (h / 64) % 2 == 0
  {
  }

  /** The year as written survives the round trip from 2000 to 2099 ... */
  lemma AsWrittenRoundTripAfter1999(tm: Tm, into: Tm)
    requires Representable(tm) && tm.year > 99
    ensures DecodeTime(into, AsWrittenTimeRegisters(tm)) == tm.(wday := into.wday)
  {
    TimeRoundTrip(tm, into);
    assert AsWrittenTimeRegisters(tm) == TimeRegisters(tm);
  }

  /** The year the chip reads back after `SetRTC` as written: the year
      itself from 2000 on; before that `tm_year - 100` wraps to a byte from
      156 to 255, whose BCD form reads back 156 more for the first four
      years and 4 less for the rest. */
  function AsWrittenYearRead(year: int): int
  {
    if year > 99 then year else if year < 4 then year + 156 else year - 4
  }

  /** The as-written year byte of a year before 2000, read back. */
  lemma AsWrittenYearByte(year: int)
    requires 0 <= year < 100
    ensures Bcd2Dec(Dec2Bcd(ToByte(year - 100))) == AsWrittenYearRead(year)
  {
    var n := year + 156;
    assert ToByte(year - 100) == n;
    var q, r := n / 10, n % 10;
    assert n == q * 10 + r;
    if q == 15 {
      assert Dec2Bcd(n) == 240 + r;
      NibbleSplit(15, r);
    } else {
      assert 16 <= q <= 25;
      assert (q * 16 + r) % 0x100 == (q - 16) * 16 + r;
      assert Dec2Bcd(n) == (q - 16) * 16 + r;
      NibbleSplit(q - 16, r);
    }
  }

  /** Every representable time written by `SetRTC` as written reads back
      unchanged except for the year, which comes back as
      `AsWrittenYearRead`; so before 2000 the year is always wrong. */
  lemma AsWrittenRoundTrip(tm: Tm, into: Tm)
    requires Representable(tm)
    ensures DecodeTime(into, AsWrittenTimeRegisters(tm))
            == tm.(wday := into.wday, year := AsWrittenYearRead(tm.year))
    ensures tm.year <= 99 ==> AsWrittenYearRead(tm.year) != tm.year
  {
    TimeRoundTrip(tm, into);
    if tm.year > 99 {
      assert AsWrittenTimeRegisters(tm) == TimeRegisters(tm);
    } else {
      var r := AsWrittenTimeRegisters(tm);
      var r0 := TimeRegisters(tm);
      assert r[..6] == r0[..6];
      MonthRegisterFields(tm);
      AsWrittenYearByte(tm.year);
      assert r[6] == Dec2Bcd(ToByte(tm.year - 100));
    }
  }

  /** ... but a clock set in 1970 (a `time_t` of 0) reads back 1966: 70 - 100
      wraps to 226, whose BCD form 0x66 reads as 66. */
  lemma AsWrittenYearBefore2000(into: Tm)
    ensures var tm := Tm(0, 0, 0, 4, 1, 0, 70);
      Representable(tm) && DecodeTime(into, AsWrittenTimeRegisters(tm)).year == 66
  {
    var tm := Tm(0, 0, 0, 4, 1, 0, 70);
    Year70Register();
    var r := AsWrittenTimeRegisters(tm);
    assert r[6] == 0x66;
    MonthRegisterFields(tm);
    assert r[5] / 128 == 0;
  }

  /** 70 - 100 as a byte is 226, and dec2bcd(226) overflows to 0x66. */
  lemma Year70Register()
    ensures AsWrittenYearRegister(Tm(0, 0, 0, 4, 1, 0, 70)) == 0x66
  {
    assert ToByte(70 - 100) == 226;
    assert (226 / 10) * 16 + 226 % 10 == 358;
  }

  /** The two-wire bus: the transmissions sent so far, each the bytes
      written between `beginTransmission` and `endTransmission`. */
  class TwoWire {
    var transmissions: seq<seq<byte>>

    constructor ()
      ensures transmissions == []
    {
      transmissions := [];
    }

    /** One transmission; `status` is what `endTransmission` reports for it
        (0 success, 1-4 the failures). */
    method Transmit(bytes: seq<byte>, status: byte) returns (e: byte)
      modifies this
      ensures transmissions == old(transmissions) + [bytes] && e == status
    {
      transmissions := transmissions + [bytes];
      e := status;
    }
  }

  /** `ReadRange` after its guard: the address goes out; on success the
      first `n` bytes the chip returns land in `values`, the rest of which is
      untouched; on failure the status comes back and `values` is untouched. */
  method ReadRegisters(wire: TwoWire, addr: byte, values: array<byte>, n: byte, status: byte, incoming: seq<byte>)
    returns (e: byte)
    requires n <= values.Length && n <= |incoming|
    modifies wire, values
    ensures wire.transmissions == old(wire.transmissions) + [[addr]]
    ensures status != 0 ==> e == status && values[..] == old(values[..])
    ensures status == 0 ==> e == 0 && values[..] == incoming[..n] + old(values[n..])
  {
    e := wire.Transmit([addr], status);
    if e != 0 {
      return;
    }
    var i := 0;
    while i < n
      invariant 0 <= i <= n
      invariant values[..i] == incoming[..i] && values[i..] == old(values[i..])
      invariant wire.transmissions == old(wire.transmissions) + [[addr]]
    {
      values[i] := incoming[i];
      i := i + 1;
    }
    assert values[..] == values[..n] + values[n..];
    e := 0;
  }
}
