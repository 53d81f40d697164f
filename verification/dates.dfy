/** Calendar dates as `DateTime` holds them, and the `dd/MM/yyyy` stamp the
    agent writes into its postpone-date file. */
module Dates {
  import opened Wrappers

  /** A Gregorian year, month and day. */
  datatype DateTime = DateTime(year: int, month: int, day: int)

  predicate IsLeapYear(year: int)
  {
    year % 4 == 0 && (year % 100 != 0 || year % 400 == 0)
  }

  function DaysInMonth(year: int, month: int): (n: int)
    requires 1 <= month <= 12
    ensures 28 <= n <= 31
  {
    if month == 2 then (if IsLeapYear(year) then 29 else 28)
    else if month == 4 || month == 6 || month == 9 || month == 11 then 30
    else 31
  }

  /** The dates `DateTime` can represent: years 1 to 9999. */
  predicate ValidDate(d: DateTime)
  {
    && 1 <= d.year <= 9999
    && 1 <= d.month <= 12
    && 1 <= d.day <= DaysInMonth(d.year, d.month)
  }

  type Date = d: DateTime | ValidDate(d) witness DateTime(1, 1, 1)

  predicate IsDigit(c: char)
  {
    '0' <= c <= '9'
  }

  function Digit(n: int): (c: char)
    requires 0 <= n <= 9
    ensures IsDigit(c)
  {
    (n + '0' as int) as char
  }

  function DigitValue(c: char): (n: int)
    ensures IsDigit(c) ==> 0 <= n <= 9
  {
    c as int - '0' as int
  }

  predicate AllDigits(s: string)
  {
    forall i | 0 <= i < |s| :: IsDigit(s[i])
  }

  /** The decimal number a string of digits spells, most significant first. */
  function Number(s: string): (n: nat)
    requires AllDigits(s)
  {
    if s == [] then 0 else 10 * Number(s[..|s| - 1]) + DigitValue(s[|s| - 1])
  }

  /** `n` written with exactly `width` digits, zero-padded on the left. */
  function Padded(n: nat, width: nat): (s: string)
    requires n < Power10(width)
    ensures |s| == width
    ensures AllDigits(s)
    decreases width
  {
    if width == 0 then "" else Padded(n / 10, width - 1) + [Digit(n % 10)]
  }

  function Power10(width: nat): (p: nat)
    ensures p >= 1
  {
    if width == 0 then 1 else 10 * Power10(width - 1)
  }

  /** Reading back a zero-padded number gives the number. */
  lemma {:induction false} PaddedNumber(n: nat, width: nat)
    requires n < Power10(width)
    ensures Number(Padded(n, width)) == n
    decreases width
  {
    if width > 0 {
      var s := Padded(n, width);
      assert s[..|s| - 1] == Padded(n / 10, width - 1);
      PaddedNumber(n / 10, width - 1);
    }
  }

  /** `DateTime.ToString("dd/MM/yyyy")`: two-digit day, two-digit month,
      four-digit year, with the culture's date separator for each `/`. */
  function Stamp(d: Date, separator: string): (s: string)
    ensures |s| == 8 + 2 * |separator|
    ensures ReadStamp(s, separator) == Some(d)
  {
    StampPiecesRead(d, separator);
    Padded(d.day, 2) + separator + Padded(d.month, 2) + separator + Padded(d.year, 4)
  }

  /** Reads a string laid out as `Stamp` lays it out: digits at the fixed
      positions, `separator` between them, and a valid date. */
  function ReadStamp(s: string, separator: string): (r: Option<Date>)
    ensures r.Some? ==> |s| == 8 + 2 * |separator|
  {
    var k := |separator|;
    if |s| != 8 + 2 * k then None
    else
      var dd, mm, yyyy := s[..2], s[2 + k..4 + k], s[4 + 2 * k..];
      if s[2..2 + k] != separator || s[4 + k..4 + 2 * k] != separator then None
      else if !AllDigits(dd) || !AllDigits(mm) || !AllDigits(yyyy) then None
      else
        var d := DateTime(Number(yyyy), Number(mm), Number(dd));
        if ValidDate(d) then Some(d) else None
  }

  /** The three parts of a concatenation, sliced back out by their lengths. */
  lemma SliceParts(a: string, b: string, c: string)
    ensures (a + b + c)[..|a|] == a
    ensures (a + b + c)[|a|..|a| + |b|] == b
    ensures (a + b + c)[|a| + |b|..] == c
  {
  }

  /** The zero-padded day, month and year, joined by the separator, read back
      at their fixed positions as the date they were made from. */
  lemma StampPiecesRead(d: Date, separator: string)
    ensures ReadStamp(Padded(d.day, 2) + separator + Padded(d.month, 2) + separator + Padded(d.year, 4), separator) == Some(d)
  {
    var k := |separator|;
    var dd, mm, yyyy := Padded(d.day, 2), Padded(d.month, 2), Padded(d.year, 4);
    var s := dd + separator + mm + separator + yyyy;
    var head := dd + separator + mm;
    assert s == head + separator + yyyy;
    SliceParts(head, separator, yyyy);
    SliceParts(dd, separator, mm);
    assert s[..4 + k] == head;
    assert s[..2] == head[..2] == dd;
    assert s[2..2 + k] == head[2..2 + k] == separator;
    assert s[2 + k..4 + k] == head[2 + k..4 + k] == mm;
    assert s[4 + k..4 + 2 * k] == separator;
    assert s[4 + 2 * k..] == yyyy;
    PaddedNumber(d.day, 2);
    PaddedNumber(d.month, 2);
    PaddedNumber(d.year, 4);
  }

  /** Distinct dates give distinct stamps. */
  lemma StampInjective(d: Date, e: Date, separator: string)
    requires Stamp(d, separator) == Stamp(e, separator)
    ensures d == e
  {
  }
}
