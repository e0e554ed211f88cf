/** Python's `int(x)` applied to one element of a configured list, as the
    dummy policy does to every configured HTTP status code.  An element is
    either already an integer or a string; a string is stripped of
    surrounding whitespace and must then be an optional sign followed by
    decimal digits, otherwise `int` raises ValueError (here: None). */
module PyInt {
  import opened Wrappers

  /** One element of a list read from the settings. */
  datatype ConfigItem = IntItem(i: int) | StrItem(s: string)

  /** The characters `str.isspace` accepts, which `str.strip` and `int`
      remove from both ends: tab through carriage return, the four
      information separators U+001C..U+001F, space, U+0085, no-break space,
      and the Unicode space and line/paragraph separators. */
  predicate IsSpace(c: char) {
    var n := c as int;
    || 9 <= n <= 13 || 28 <= n <= 32 || n == 0x85 || n == 0xA0 || n == 0x1680
    || 0x2000 <= n <= 0x200A || n == 0x2028 || n == 0x2029 || n == 0x202F || n == 0x205F || n == 0x3000
  }

  predicate AllSpace(s: string) {
    forall i | 0 <= i < |s| :: IsSpace(s[i])
  }

  predicate IsDigit(c: char) {
    '0' <= c <= '9'
  }

  predicate AllDigits(s: string) {
    forall i | 0 <= i < |s| :: IsDigit(s[i])
  }

  function StripLeft(s: string): (r: string)
    ensures |r| <= |s| && r == s[|s| - |r|..]
    ensures r == [] || !IsSpace(r[0])
    ensures forall i | 0 <= i < |s| - |r| :: IsSpace(s[i])
  {
    if s != [] && IsSpace(s[0]) then StripLeft(s[1..]) else s
  }

  function StripRight(s: string): (r: string)
    ensures |r| <= |s| && r == s[..|r|]
    ensures r == [] || !IsSpace(r[|r| - 1])
    ensures forall i | |r| <= i < |s| :: IsSpace(s[i])
  {
    if s != [] && IsSpace(s[|s| - 1]) then StripRight(s[..|s| - 1]) else s
  }

  /** `str.strip()` with no argument. */
  function Strip(s: string): string {
    StripRight(StripLeft(s))
  }

  function DigitValue(c: char): nat
    requires IsDigit(c)
  {
    c as int - '0' as int
  }

  /** The value of a string of decimal digits, most significant first. */
  function DigitsValue(s: string): nat
    requires AllDigits(s)
  {
    if s == [] then 0 else DigitsValue(s[..|s| - 1]) * 10 + DigitValue(s[|s| - 1])
  }

  /** `int(s)` for a string that has already been stripped. */
  function ParseDecimal(s: string): Option<int> {
    if |s| > 0 && (s[0] == '+' || s[0] == '-') then
      if |s| > 1 && AllDigits(s[1..]) then
        Some(if s[0] == '-' then -(DigitsValue(s[1..]) as int) else DigitsValue(s[1..]))
      else None
    else if |s| > 0 && AllDigits(s) then Some(DigitsValue(s))
    else None
  }

  /** `int(x)`: None stands for the ValueError Python raises. */
  function ToInt(x: ConfigItem): Option<int> {
    match x
    case IntItem(i) => Some(i)
    case StrItem(s) => ParseDecimal(Strip(s))
  }

  function DigitChar(d: nat): char
    requires d < 10
  {
    ('0' as int + d) as char
  }

  /** `str(n)` for a natural number: its decimal digits, without leading zeros. */
  function Decimal(n: nat): (r: string)
    ensures |r| > 0 && AllDigits(r)
  {
    if n < 10 then [DigitChar(n)] else Decimal(n / 10) + [DigitChar(n % 10)]
  }

  /** `str(n)` for any integer. */
  function IntToString(n: int): string {
    if n < 0 then "-" + Decimal(-n) else Decimal(n)
  }

  /** Reading back the digits `str` writes gives the number. */
  lemma {:induction false} DecimalRoundTrip(n: nat)
    ensures DigitsValue(Decimal(n)) == n
  {
    var s := Decimal(n);
    if n >= 10 {
      DecimalRoundTrip(n / 10);
      assert s[..|s| - 1] == Decimal(n / 10);
    }
  }

  /** A string without whitespace at either end is left alone by `strip`. */
  lemma StripUnpadded(s: string)
    requires s == [] || (!IsSpace(s[0]) && !IsSpace(s[|s| - 1]))
    ensures Strip(s) == s
  {
  }

  lemma ParseUnsignedDecimal(n: nat)
    ensures ParseDecimal(Decimal(n)) == Some(n)
  {
    var d := Decimal(n);
    assert IsDigit(d[0]);
    DecimalRoundTrip(n);
  }

  lemma ParseNegativeDecimal(n: nat)
    ensures ParseDecimal("-" + Decimal(n)) == Some(-(n as int))
  {
    var d := Decimal(n);
    var s := "-" + d;
    assert s[0] == '-' && s[1..] == d;
    DecimalRoundTrip(n);
  }

  lemma IntToStringUnpadded(n: int)
    ensures var s := IntToString(n); s != [] && !IsSpace(s[0]) && !IsSpace(s[|s| - 1])
  {
    var d := if n < 0 then Decimal(-n) else Decimal(n);
    assert IsDigit(d[0]) && IsDigit(d[|d| - 1]);
  }

  lemma ParseIntToString(n: int)
    ensures ParseDecimal(IntToString(n)) == Some(n)
  {
    if n < 0 {
      ParseNegativeDecimal(-n);
    } else {
      ParseUnsignedDecimal(n);
    }
  }

  /** A configured code written as a string converts to the same integer as
      the code written as an integer: `int(str(n)) == int(n) == n`. */
  lemma StringCodeAgreesWithIntCode(n: int)
    ensures ToInt(StrItem(IntToString(n))) == ToInt(IntItem(n)) == Some(n)
  {
    IntToStringUnpadded(n);
    StripUnpadded(IntToString(n));
    ParseIntToString(n);
  }

  /** Any run of whitespace on either side of a configured string leaves
      what `int` makes of it unchanged. */
  lemma {:induction false} SurroundingSpaceIgnored(w1: string, s: string, w2: string)
    requires AllSpace(w1) && AllSpace(w2)
    ensures ToInt(StrItem(w1 + s + w2)) == ToInt(StrItem(s))
  {
    assert w1 + s + w2 == w1 + (s + w2);
    StripLeftSkipsSpace(w1, s + w2);
    var l := StripLeft(s);
    if l == [] {
      assert forall i | 0 <= i < |s + w2| :: IsSpace((s + w2)[i]);
      StripLeftAllSpace(s + w2);
    } else {
      StripLeftAppend(s, w2);
      StripRightSkipsSpace(l, w2);
    }
  }

  lemma {:induction false} StripLeftSkipsSpace(w: string, s: string)
    requires AllSpace(w)
    ensures StripLeft(w + s) == StripLeft(s)
  {
    if w == [] {
      assert w + s == s;
    } else {
      assert (w + s)[0] == w[0] && (w + s)[1..] == w[1..] + s;
      StripLeftSkipsSpace(w[1..], s);
    }
  }

  lemma {:induction false} StripRightSkipsSpace(s: string, w: string)
    requires AllSpace(w)
    ensures StripRight(s + w) == StripRight(s)
  {
    if w == [] {
      assert s + w == s;
    } else {
      var sw := s + w;
      assert sw[|sw| - 1] == w[|w| - 1] && sw[..|sw| - 1] == s + w[..|w| - 1];
      StripRightSkipsSpace(s, w[..|w| - 1]);
    }
  }

  lemma {:induction false} StripLeftAllSpace(s: string)
    requires forall i | 0 <= i < |s| :: IsSpace(s[i])
    ensures StripLeft(s) == []
  {
    if s != [] {
      StripLeftAllSpace(s[1..]);
    }
  }

  lemma {:induction false} StripLeftAppend(s: string, t: string)
    requires StripLeft(s) != []
    ensures StripLeft(s + t) == StripLeft(s) + t
  {
    if IsSpace(s[0]) {
      assert StripLeft(s) == StripLeft(s[1..]);
      assert (s + t)[0] == s[0] && (s + t)[1..] == s[1..] + t;
      StripLeftAppend(s[1..], t);
    } else {
      assert StripLeft(s) == s;
      assert (s + t)[0] == s[0];
    }
  }
}
