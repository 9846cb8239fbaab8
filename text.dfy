/** Fixed-width integers, decimal and hexadecimal rendering, and the small C
    library routines the firmware relies on (atoi, strlcpy, strcasecmp, the
    NUL-terminated view of a byte buffer). */
module Text {

  type byte = x: int | 0 <= x < 0x100
  type uint16 = x: int | 0 <= x < 0x1_0000
  type uint32 = x: int | 0 <= x < 0x1_0000_0000

  const NUL: char := '\0'

  function Min(a: int, b: int): int { if a < b then a else b }

  /** Regrouping a concatenation, for the loops that build a string or a
      list one piece at a time. */
  lemma ConcatAssoc<T>(a: seq<T>, b: seq<T>, c: seq<T>)
    ensures (a + b) + c == a + (b + c)
  {
  }

  datatype Option<T> = None | Some(value: T)

  // ---------------------------------------------------------------------
  // Decimal rendering ("%u", "%d", String(int)) and its inverse.

  predicate IsDigit(c: char) { '0' <= c <= '9' }

  function DigitChar(d: nat): (c: char)
    requires d < 10
    ensures IsDigit(c) && c as int - '0' as int == d
  {
    (d + '0' as int) as char
  }

  function DigitValue(c: char): nat
    requires IsDigit(c)
  {
    c as int - '0' as int
  }

  predicate AllDigits(s: string) { forall i :: 0 <= i < |s| ==> IsDigit(s[i]) }

  /** The decimal text of `n`, most significant digit first, no leading zero. */
  function NatToString(n: nat): (s: string)
    decreases n
  {
    if n < 10 then [DigitChar(n)] else NatToString(n / 10) + [DigitChar(n % 10)]
  }

  function IntToString(n: int): string
  {
    if n < 0 then "-" + NatToString(-n) else NatToString(n)
  }

  /** The number a string of decimal digits denotes. */
  function DigitsValue(s: string): nat
    requires AllDigits(s)
  {
    if s == [] then 0 else DigitsValue(s[..|s| - 1]) * 10 + DigitValue(s[|s| - 1])
  }

  lemma {:induction false} NatToStringDigits(n: nat)
    ensures var s := NatToString(n); 1 <= |s| && AllDigits(s) && DigitsValue(s) == n
    ensures |NatToString(n)| > 1 ==> NatToString(n)[0] != '0'
    decreases n
  {
    var s := NatToString(n);
    if n >= 10 {
      NatToStringDigits(n / 10);
      var t := NatToString(n / 10);
      assert s[..|s| - 1] == t;
      assert s[0] == t[0];
    }
  }

  /** A number below 10^k has at most k decimal digits. */
  lemma {:induction false} NatToStringLength(n: nat, k: nat)
    requires k >= 1 && n < Pow10(k)
    ensures |NatToString(n)| <= k
    decreases k
  {
    if n >= 10 {
      assert Pow10(1) == 10;
      assert k >= 2;
      assert n / 10 < Pow10(k - 1);
      NatToStringLength(n / 10, k - 1);
    }
  }

  function Pow10(k: nat): nat { if k == 0 then 1 else 10 * Pow10(k - 1) }

  // ---------------------------------------------------------------------
  // atoi(3) as newlib implements it: leading white space, an optional sign,
  // then the longest run of decimal digits (overflow is not modelled).

  predicate IsSpace(c: char) { c == ' ' || c == '\t' || c == '\n' || c == '\r' || c == 11 as char || c == 12 as char }

  function SkipSpaces(s: string): (t: string)
    ensures |t| <= |s| && t == s[|s| - |t|..]
    ensures t != [] ==> !IsSpace(t[0])
  {
    if s != [] && IsSpace(s[0]) then SkipSpaces(s[1..]) else s
  }

  /** The longest prefix of `s` made of decimal digits. */
  function LeadingDigits(s: string): (d: string)
    ensures d <= s && AllDigits(d)
    ensures |d| < |s| ==> !IsDigit(s[|d|])
  {
    if s != [] && IsDigit(s[0]) then [s[0]] + LeadingDigits(s[1..]) else []
  }

  function Atoi(s: string): int
  {
    var t := SkipSpaces(s);
    if t != [] && t[0] == '-' then -(DigitsValue(LeadingDigits(t[1..])) as int)
    else if t != [] && t[0] == '+' then DigitsValue(LeadingDigits(t[1..]))
    else DigitsValue(LeadingDigits(t))
  }

  lemma {:induction false} LeadingDigitsOfDigits(s: string, rest: string)
    requires AllDigits(s)
    requires rest == [] || !IsDigit(rest[0])
    ensures LeadingDigits(s + rest) == s
    decreases |s|
  {
    if s != [] {
      assert (s + rest)[1..] == s[1..] + rest;
      LeadingDigitsOfDigits(s[1..], rest);
    }
  }

  /** atoi reads back what "%u" printed, whatever follows the digits. */
  lemma AtoiOfNatToString(n: nat, rest: string)
    requires rest == [] || !IsDigit(rest[0])
    ensures Atoi(NatToString(n) + rest) == n
  {
    NatToStringDigits(n);
    var s := NatToString(n);
    assert (s + rest)[0] == s[0];
    LeadingDigitsOfDigits(s, rest);
    AtoiOfDigits(s + rest);
  }

  /** A string that starts with a digit: atoi is the value of its leading
      digits. */
  lemma AtoiOfDigits(t: string)
    requires t != [] && IsDigit(t[0])
    ensures Atoi(t) == DigitsValue(LeadingDigits(t))
  {
    assert !IsSpace(t[0]) && t[0] != '-' && t[0] != '+';
    assert SkipSpaces(t) == t;
  }

  // ---------------------------------------------------------------------
  // Hexadecimal rendering ("%02x", "%08x") and its inverse.

  function HexDigit(d: nat): char
    requires d < 16
  {
    if d < 10 then (d + '0' as int) as char else (d - 10 + 'a' as int) as char
  }

  function HexValue(c: char): int
  {
    if '0' <= c <= '9' then c as int - '0' as int
    else if 'a' <= c <= 'f' then c as int - 'a' as int + 10
    else -1
  }

  /** "%02x" of a byte: two lower-case hexadecimal digits. */
  function Hex2(b: byte): (s: string)
    ensures |s| == 2
    ensures HexValue(s[0]) * 16 + HexValue(s[1]) == b
  {
    [HexDigit(b / 16), HexDigit(b % 16)]
  }

  /** "%08x" of a 32-bit word. */
  function Hex8(x: uint32): (s: string)
    ensures |s| == 8
  {
    Hex2(x / 0x100_0000) + Hex2((x / 0x1_0000) % 0x100) + Hex2((x / 0x100) % 0x100) + Hex2(x % 0x100)
  }

  /** The number a string of hexadecimal digits denotes, most significant first. */
  function HexNumber(s: string): int
  {
    if s == [] then 0 else HexNumber(s[..|s| - 1]) * 16 + HexValue(s[|s| - 1])
  }

  // ---------------------------------------------------------------------
  // Text helpers of the C library.

  /** The C string a character buffer holds: everything before its first NUL. */
  function CStr(s: string): (r: string)
    ensures r <= s && NUL !in r
    ensures |r| < |s| ==> s[|r|] == NUL
  {
    if s == [] || s[0] == NUL then [] else [s[0]] + CStr(s[1..])
  }

  /** strlcpy(dst, src, size) for size >= 1: what `dst` holds afterwards. */
  function Strlcpy(src: string, size: nat): (r: string)
    requires size >= 1
    ensures r <= src && |r| < size
    ensures |src| < size ==> r == src
    ensures |src| >= size ==> |r| == size - 1
  {
    src[..Min(|src|, size - 1)]
  }

  /** tolower(3) in the C locale. */
  function Lower(c: char): char
  {
    if 'A' <= c <= 'Z' then (c as int - 'A' as int + 'a' as int) as char else c
  }

  /** strcasecmp(a, b) == 0. */
  predicate EqualsIgnoreCase(a: string, b: string)
  {
    |a| == |b| && forall i :: 0 <= i < |a| ==> Lower(a[i]) == Lower(b[i])
  }

  datatype IPv4 = IPv4(a: byte, b: byte, c: byte, d: byte)

  /** "%u.%u.%u.%u" of an address. */
  function IpToString(ip: IPv4): string
  {
    NatToString(ip.a) + "." + NatToString(ip.b) + "." + NatToString(ip.c) + "." + NatToString(ip.d)
  }

  /** (now - then) computed on 32-bit unsigned longs, as millis() arithmetic is. */
  function Elapsed(now: uint32, since: uint32): uint32
  {
    (now - since) % 0x1_0000_0000
  }
}
