/**
 * The timestamp part of a note file name: Go's layout "2006-01-02_150405",
 * i.e. `YYYY-MM-DD_HHMMSS` with every field zero-padded and a 24-hour clock.
 * The instant arrives already broken into local calendar fields; time zones
 * and the clock itself are outside the model.
 */
module Timestamps {
  import opened Wrappers

  /** Local calendar fields of a `time.Time`, to the second. */
  datatype Timestamp = Timestamp(year: int, month: int, day: int, hour: int, minute: int, second: int)

  predicate IsLeapYear(y: int)
  {
    y % 4 == 0 && (y % 100 != 0 || y % 400 == 0)
  }

  function DaysInMonth(y: int, m: int): int
  {
    if m == 2 then (if IsLeapYear(y) then 29 else 28)
    else if m == 4 || m == 6 || m == 9 || m == 11 then 30
    else 31
  }

  /** A real civil date and time whose year fits the four-digit, zero-padded year field. */
  predicate ValidTimestamp(t: Timestamp)
  {
    0 <= t.year <= 9999 &&
    1 <= t.month <= 12 &&
    1 <= t.day <= DaysInMonth(t.year, t.month) &&
    0 <= t.hour <= 23 &&
    0 <= t.minute <= 59 &&
    0 <= t.second <= 59
  }

  predicate IsDigit(c: char)
  {
    '0' <= c <= '9'
  }

  function DigitChar(d: int): (c: char)
    requires 0 <= d <= 9
    ensures IsDigit(c) && c as int - '0' as int == d
  {
    ('0' as int + d) as char
  }

  /** Decimal value of a string of digits, most significant first. */
  function Number(s: string): int
  {
    if s == [] then 0
    else 10 * Number(s[..|s| - 1]) + DigitValue(s[|s| - 1])
  }

  function DigitValue(c: char): int
  {
    c as int - '0' as int
  }

  /** The value of a two-character string. */
  lemma NumberOfPair(a: char, b: char)
    ensures Number([a, b]) == 10 * DigitValue(a) + DigitValue(b)
  {
    var ab := [a, b];
    assert ab[..1] == [a];
    assert [a][..0] == [];
    assert Number([a]) == 10 * Number([]) + DigitValue(a);
    assert Number(ab) == 10 * Number([a]) + DigitValue(b);
  }

  predicate AllDigits(s: string)
  {
    forall i :: 0 <= i < |s| ==> IsDigit(s[i])
  }

  /** `n` written with exactly two digits, zero-padded. */
  function Pad2(n: int): (s: string)
    requires 0 <= n <= 99
    ensures |s| == 2 && AllDigits(s) && Number(s) == n
  {
    NumberOfPair(DigitChar(n / 10), DigitChar(n % 10));
    [DigitChar(n / 10), DigitChar(n % 10)]
  }

  /** `n` written with exactly four digits, zero-padded. */
  function Pad4(n: int): (s: string)
    requires 0 <= n <= 9999
    ensures |s| == 4 && AllDigits(s) && Number(s) == n
  {
    var hi, lo := Pad2(n / 100), Pad2(n % 100);
    NumberOfConcatPair(hi, lo);
    hi + lo
  }

  /** `t.Format("2006-01-02_150405")` at utils/file.go:13. */
  function FormatTimestamp(t: Timestamp): (s: string)
    requires ValidTimestamp(t)
    ensures |s| == 17
    ensures s[4] == '-' && s[7] == '-' && s[10] == '_'
    ensures forall i :: 0 <= i < 17 && i != 4 && i != 7 && i != 10 ==> IsDigit(s[i])
  {
    Pad4(t.year) + "-" + Pad2(t.month) + "-" + Pad2(t.day) + "_" +
    Pad2(t.hour) + Pad2(t.minute) + Pad2(t.second)
  }

  /** The layout's shape: separators at positions 4, 7 and 10 and digits elsewhere. */
  predicate HasLayoutShape(s: string)
  {
    |s| == 17 && s[4] == '-' && s[7] == '-' && s[10] == '_' &&
    AllDigits(s[..4]) && AllDigits(s[5..7]) && AllDigits(s[8..10]) &&
    AllDigits(s[11..13]) && AllDigits(s[13..15]) && AllDigits(s[15..])
  }

  /**
   * `time.Parse("2006-01-02_150405", s)` as the tests use it to read a file
   * name back: the layout's shape, then the fields, then a range check on
   * the resulting date.
   */
  function ParseTimestamp(s: string): Option<Timestamp>
  {
    if !HasLayoutShape(s) then None
    else
      var t := Timestamp(Number(s[..4]), Number(s[5..7]), Number(s[8..10]),
                         Number(s[11..13]), Number(s[13..15]), Number(s[15..]));
      if ValidTimestamp(t) then Some(t) else None
  }

  /** Appending two digits multiplies the value so far by a hundred. */
  lemma NumberOfConcatPair(hi: string, lo: string)
    requires |lo| == 2
    ensures Number(hi + lo) == 100 * Number(hi) + Number(lo)
  {
    var s := hi + lo;
    assert s[..|s| - 1] == hi + [lo[0]];
    assert (hi + [lo[0]])[..|hi|] == hi;
    assert lo == [lo[0], lo[1]];
    NumberOfPair(lo[0], lo[1]);
  }

  /** Two digits read as a number and written back give the same two digits. */
  lemma Pad2OfNumber(s: string)
    requires |s| == 2 && AllDigits(s)
    ensures 0 <= Number(s) <= 99 && Pad2(Number(s)) == s
  {
    assert s == [s[0], s[1]];
    NumberOfPair(s[0], s[1]);
  }

  /** Four digits read as a number and written back give the same four digits. */
  lemma Pad4OfNumber(s: string)
    requires |s| == 4 && AllDigits(s)
    ensures 0 <= Number(s) <= 9999 && Pad4(Number(s)) == s
  {
    var hi, lo := s[..2], s[2..];
    assert hi + lo == s;
    NumberOfConcatPair(hi, lo);
    Pad2OfNumber(hi);
    Pad2OfNumber(lo);
    HundredDivMod(Number(hi), Number(lo));
  }

  /** Splitting `100 * a + b` at the hundreds gives back `a` and `b`. */
  lemma HundredDivMod(a: int, b: int)
    requires 0 <= b <= 99
    ensures (100 * a + b) / 100 == a && (100 * a + b) % 100 == b
  {
  }

  /** Reading back a formatted timestamp recovers it: the name's first 17 characters identify the second. */
  lemma {:induction false} ParseFormatted(t: Timestamp)
    requires ValidTimestamp(t)
    ensures ParseTimestamp(FormatTimestamp(t)) == Some(t)
  {
    var s := FormatTimestamp(t);
    assert s[..4] == Pad4(t.year);
    assert s[5..7] == Pad2(t.month);
    assert s[8..10] == Pad2(t.day);
    assert s[11..13] == Pad2(t.hour);
    assert s[13..15] == Pad2(t.minute);
    assert s[15..] == Pad2(t.second);
  }

  /** Conversely, the only text that parses as `t` is `t` formatted: the layout is unambiguous. */
  lemma {:induction false} FormatParsed(s: string, t: Timestamp)
    requires ParseTimestamp(s) == Some(t)
    ensures ValidTimestamp(t) && FormatTimestamp(t) == s
  {
    Pad4OfNumber(s[..4]);
    Pad2OfNumber(s[5..7]);
    Pad2OfNumber(s[8..10]);
    Pad2OfNumber(s[11..13]);
    Pad2OfNumber(s[13..15]);
    Pad2OfNumber(s[15..]);
    assert s == s[..4] + "-" + s[5..7] + "-" + s[8..10] + "_" + s[11..13] + s[13..15] + s[15..];
  }
}
