/** The C library conversions the core relies on: `atoi` (parsing a
    decimal number), `snprintf("%d")` (rendering one) and `"%02X"`
    (rendering a byte as two upper-case hex digits). */
module CFormat {
  import opened EspTypes

  // ---------------------------------------------------------------------
  // Decimal digits

  predicate IsDigit(c: char) { '0' <= c <= '9' }

  predicate AllDigits(s: string) { forall i :: 0 <= i < |s| ==> IsDigit(s[i]) }

  function DigitChar(d: nat): (c: char)
    requires d < 10
    ensures IsDigit(c) && c as int - '0' as int == d
  {
    ('0' as int + d) as char
  }

  /** The decimal digits of `n`, most significant first, without leading zeros. */
  function Decimal(n: nat): (s: string)
    ensures 1 <= |s| && AllDigits(s)
    ensures s[0] == '0' <==> n == 0
    ensures n == 0 ==> s == "0"
  {
    if n < 10 then [DigitChar(n)] else Decimal(n / 10) + [DigitChar(n % 10)]
  }

  /** The number a string of decimal digits denotes. */
  function DecimalValue(s: string): nat
    requires AllDigits(s)
  {
    if s == [] then 0 else DecimalValue(s[..|s| - 1]) * 10 + (s[|s| - 1] as int - '0' as int)
  }

  /** Reading back the digits of `n` gives `n`. */
  lemma {:induction false} DecimalRoundTrip(n: nat)
    ensures DecimalValue(Decimal(n)) == n
  {
    if n >= 10 {
      var s := Decimal(n);
      assert s[..|s| - 1] == Decimal(n / 10);
      DecimalRoundTrip(n / 10);
    }
  }

  // ---------------------------------------------------------------------
  // snprintf("%d")

  /** `"%d"` of an `int`. */
  function FormatInt(x: int): (r: string)
    ensures |r| >= 1 && (r[0] == '-' <==> x < 0)
    ensures AllDigits(if x < 0 then r[1..] else r)
  {
    if x < 0 then "-" + Decimal(-x) else Decimal(x)
  }

  /** How `"%d"` reads a `uint32_t` argument: as the 32-bit signed
      integer with the same bits. */
  function AsInt32(w: nat): (x: int)
    requires IsU32(w)
    ensures IsInt32(x)
    ensures x == w || x == w - U32Limit
    ensures x % U32Limit == w
  {
    if w <= Int32Max then w else w - U32Limit
  }

  // ---------------------------------------------------------------------
  // atoi

  /** The characters `isspace` accepts in the C locale. */
  predicate IsSpace(c: char) { c == ' ' || 9 <= c as int <= 13 }

  function SkipSpaces(s: string): (t: string)
    ensures |t| <= |s| && t == s[|s| - |t|..]
    ensures t != [] ==> !IsSpace(t[0])
  {
    if s != [] && IsSpace(s[0]) then SkipSpaces(s[1..]) else s
  }

  /** The longest prefix of `s` made of decimal digits. */
  function LeadingDigits(s: string): (d: string)
    ensures AllDigits(d) && d <= s
    ensures |d| < |s| ==> !IsDigit(s[|d|])
  {
    if s != [] && IsDigit(s[0]) then [s[0]] + LeadingDigits(s[1..]) else []
  }

  function Saturate(v: int): (x: int)
    ensures IsInt32(x)
    ensures IsInt32(v) ==> x == v
  {
    if v < Int32Min then Int32Min else if v > Int32Max then Int32Max else v
  }

  /** `atoi` as the C library implements it, through `strtol`: leading
      white space is skipped, one optional sign is read, then the longest
      run of digits; a value outside the `int` range saturates. */
  function Atoi(s: string): (x: int)
    ensures IsInt32(x)
    ensures SkipSpaces(s) == [] ==> x == 0
  {
    var t := SkipSpaces(s);
    var signed := t != [] && (t[0] == '-' || t[0] == '+');
    var body := if signed then t[1..] else t;
    var v: int := DecimalValue(LeadingDigits(body));
    Saturate(if signed && t[0] == '-' then -v else v)
  }

  /** The conversion of an `int` to `uint32_t`: reduction modulo 2^32. */
  function ToU32(x: int): (w: nat)
    ensures IsU32(w)
    ensures (x - w) % U32Limit == 0
    ensures IsU32(x) ==> w == x
  {
    x % U32Limit
  }

  lemma {:induction false} LeadingDigitsOfDigits(s: string)
    requires AllDigits(s)
    ensures LeadingDigits(s) == s
  {
    if s != [] {
      LeadingDigitsOfDigits(s[1..]);
    }
  }

  /** `atoi` parses back whatever `"%d"` renders. */
  lemma AtoiFormatInt(x: int)
    requires IsInt32(x)
    ensures Atoi(FormatInt(x)) == x
  {
    if x < 0 {
      AtoiNegative(-x);
    } else {
      AtoiDigits(x);
    }
  }

  lemma AtoiDigits(n: nat)
    requires n <= Int32Max
    ensures Atoi(Decimal(n)) == n
  {
    var d := Decimal(n);
    DecimalRoundTrip(n);
    LeadingDigitsOfDigits(d);
    assert IsDigit(d[0]);
    assert SkipSpaces(d) == d;
  }

  lemma AtoiNegative(n: nat)
    requires 0 < n <= -Int32Min
    ensures Atoi("-" + Decimal(n)) == -(n as int)
  {
    var d := Decimal(n);
    var s := "-" + d;
    DecimalRoundTrip(n);
    LeadingDigitsOfDigits(d);
    assert SkipSpaces(s) == s;
    assert s[1..] == d;
  }

  /** Rendering a `uint32_t` with `"%d"` and storing `atoi` of the text
      into a `uint32_t` gives the original value back, for every value. */
  lemma U32ThroughText(w: nat)
    requires IsU32(w)
    ensures ToU32(Atoi(FormatInt(AsInt32(w)))) == w
  {
    AtoiFormatInt(AsInt32(w));
  }

  // ---------------------------------------------------------------------
  // "%02X"

  predicate IsUpperHex(c: char) { '0' <= c <= '9' || 'A' <= c <= 'F' }

  function HexValue(c: char): (d: nat)
    requires IsUpperHex(c)
    ensures d < 16
  {
    if c <= '9' then c as int - '0' as int else c as int - 'A' as int + 10
  }

  function HexDigit(d: nat): (c: char)
    requires d < 16
    ensures IsUpperHex(c) && HexValue(c) == d
  {
    if d < 10 then ('0' as int + d) as char else ('A' as int + d - 10) as char
  }

  /** `"%02X"` of a byte. */
  function Hex2(b: byte): (s: string)
    ensures |s| == 2 && IsUpperHex(s[0]) && IsUpperHex(s[1])
    ensures HexValue(s[0]) * 16 + HexValue(s[1]) == b as int
  {
    [HexDigit(b as nat / 16), HexDigit(b as nat % 16)]
  }

  /** The bytes `"%02X%02X..."` prints, one pair of digits per byte. */
  function HexString(bs: seq<byte>): (s: string)
    ensures |s| == 2 * |bs|
    ensures forall i :: 0 <= i < |s| ==> IsUpperHex(s[i])
  {
    if bs == [] then [] else Hex2(bs[0]) + HexString(bs[1..])
  }

  /** Reads pairs of upper-case hex digits back into bytes. */
  function HexPairs(s: string): (bs: seq<byte>)
    requires |s| % 2 == 0
    requires forall i :: 0 <= i < |s| ==> IsUpperHex(s[i])
    ensures |bs| == |s| / 2
  {
    if s == [] then [] else [(HexValue(s[0]) * 16 + HexValue(s[1])) as byte] + HexPairs(s[2..])
  }

  /** Reading back the hex text of some bytes gives the bytes. */
  lemma {:induction false} HexRoundTrip(bs: seq<byte>)
    ensures HexPairs(HexString(bs)) == bs
  {
    if bs != [] {
      var s := HexString(bs);
      assert s[2..] == HexString(bs[1..]);
      HexRoundTrip(bs[1..]);
    }
  }
}
