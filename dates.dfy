/**
  Calendar dates as the gate reads them: the strict `dd/MM/yyyy` check that
  stands in for GenericValidator.isDate, Java's Integer.parseInt, and the
  comparison of a date's midnight with the current time.
 */
module Dates {
  import opened Wrappers

  datatype Date = Date(year: int, month: int, day: int)

  /** A point in time: a calendar date and the nanoseconds elapsed since its midnight. */
  datatype Timestamp = Timestamp(date: Date, nanoOfDay: nat)

  predicate IsLeapYear(y: int) {
    (y % 4 == 0 && y % 100 != 0) || y % 400 == 0
  }

  function DaysInMonth(year: int, month: int): (n: int)
    requires 1 <= month <= 12
    ensures 28 <= n <= 31
  {
    if month == 2 then (if IsLeapYear(year) then 29 else 28)
    else if month == 4 || month == 6 || month == 9 || month == 11 then 30
    else 31
  }

  /** A date that exists in the calendar and whose year has four digits. */
  predicate ValidDate(d: Date) {
    1 <= d.year <= 9999 && 1 <= d.month <= 12 && 1 <= d.day <= DaysInMonth(d.year, d.month)
  }

  predicate IsDigit(c: char) {
    '0' <= c <= '9'
  }

  function DigitValue(c: char): (v: nat)
    requires IsDigit(c)
    ensures v <= 9
  {
    c as int - '0' as int
  }

  function DigitChar(v: nat): (c: char)
    requires v <= 9
    ensures IsDigit(c) && DigitValue(c) == v
  {
    ('0' as int + v) as char
  }

  predicate AllDigits(s: string) {
    forall i :: 0 <= i < |s| ==> IsDigit(s[i])
  }

  /** The value of a string of decimal digits, most significant first. */
  function DigitsValue(s: string): (v: nat)
    requires AllDigits(s)
  {
    if s == [] then 0 else DigitsValue(s[..|s| - 1]) * 10 + DigitValue(s[|s| - 1])
  }

  /** The `n`-digit decimal rendering of `v`, zero-padded on the left. */
  function Digits(v: nat, n: nat): (s: string)
    requires v < Pow10(n)
    ensures |s| == n && AllDigits(s)
  {
    if n == 0 then [] else Digits(v / 10, n - 1) + [DigitChar(v % 10)]
  }

  function Pow10(n: nat): (p: nat)
    ensures p >= 1
  {
    if n == 0 then 1 else 10 * Pow10(n - 1)
  }

  /** Rendering a number with `n` digits and reading it back gives the number. */
  lemma {:induction false} DigitsValueOfDigits(v: nat, n: nat)
    requires v < Pow10(n)
    ensures DigitsValue(Digits(v, n)) == v
  {
    if n > 0 {
      var s := Digits(v, n);
      assert s[..|s| - 1] == Digits(v / 10, n - 1);
      DigitsValueOfDigits(v / 10, n - 1);
    }
  }

  /** Reading a digit string and rendering it back with as many digits gives the string. */
  lemma {:induction false} DigitsOfDigitsValue(s: string)
    requires AllDigits(s)
    ensures DigitsValue(s) < Pow10(|s|)
    ensures Digits(DigitsValue(s), |s|) == s
  {
    if s != [] {
      var init := s[..|s| - 1];
      DigitsOfDigitsValue(init);
      var v := DigitsValue(s);
      assert v / 10 == DigitsValue(init) && v % 10 == DigitValue(s[|s| - 1]);
      assert s == init + [s[|s| - 1]];
    }
  }

  /**
    The strict `dd/MM/yyyy` reading of `s`: exactly ten characters, two-digit
    day, two-digit month and four-digit year separated by slashes, naming a
    date that exists in the calendar.
   */
  function ParseDate(s: string): (r: Option<Date>)
    ensures r.Some? ==> ValidDate(r.value)
  {
    if |s| == 10 && s[2] == '/' && s[5] == '/'
       && AllDigits(s[0..2]) && AllDigits(s[3..5]) && AllDigits(s[6..10])
    then
      var d := Date(DigitsValue(s[6..10]), DigitsValue(s[3..5]), DigitsValue(s[0..2]));
      DigitsOfDigitsValue(s[6..10]);
      if ValidDate(d) then Some(d) else None
    else None
  }

  /** GenericValidator.isDate(s, "dd/MM/yyyy", true). */
  predicate IsDate(s: string) {
    ParseDate(s).Some?
  }

  /** The `dd/MM/yyyy` text of a valid date. */
  function Render(d: Date): (s: string)
    requires ValidDate(d)
    ensures |s| == 10
  {
    Digits(d.day, 2) + "/" + Digits(d.month, 2) + "/" + Digits(d.year, 4)
  }

  /** Every valid date is accepted in its `dd/MM/yyyy` form and read back unchanged. */
  lemma RenderThenParse(d: Date)
    requires ValidDate(d)
    ensures ParseDate(Render(d)) == Some(d)
  {
    var s := Render(d);
    assert s[0..2] == Digits(d.day, 2);
    assert s[3..5] == Digits(d.month, 2);
    assert s[6..10] == Digits(d.year, 4);
    DigitsValueOfDigits(d.day, 2);
    DigitsValueOfDigits(d.month, 2);
    DigitsValueOfDigits(d.year, 4);
  }

  /** Every accepted string is exactly the `dd/MM/yyyy` form of the date read from it. */
  lemma ParseThenRender(s: string)
    requires IsDate(s)
    ensures Render(ParseDate(s).value) == s
  {
    var d := ParseDate(s).value;
    DigitsOfDigitsValue(s[0..2]);
    DigitsOfDigitsValue(s[3..5]);
    DigitsOfDigitsValue(s[6..10]);
    assert s == s[0..2] + "/" + s[3..5] + "/" + s[6..10];
  }

  /** The fields of an accepted date, read back from their fixed positions as Integer.parseInt reads them. */
  lemma ParseDateFields(s: string)
    requires IsDate(s)
    ensures ParseInt(s[0..2]) == Some(ParseDate(s).value.day)
    ensures ParseInt(s[3..5]) == Some(ParseDate(s).value.month)
    ensures ParseInt(s[6..]) == Some(ParseDate(s).value.year)
  {
    assert s[6..] == s[6..10];
  }

  /**
    Java's Integer.parseInt on a short string: an optional `+` or `-` followed
    by at least one ASCII decimal digit; anything else throws
    NumberFormatException, modelled as None. Java also accepts the decimal
    digits of other scripts; only ASCII digits are modelled.
   */
  function ParseInt(s: string): (r: Option<int>)
    ensures r.Some? <==>
      && |s| > 0 && (IsDigit(s[0]) || ((s[0] == '+' || s[0] == '-') && |s| > 1))
      && AllDigits(s[1..])
    ensures AllDigits(s) && s != [] ==> r == Some(DigitsValue(s))
    ensures |s| > 1 && s[0] == '+' && AllDigits(s[1..]) ==> r == Some(DigitsValue(s[1..]))
    ensures |s| > 1 && s[0] == '-' && AllDigits(s[1..]) ==> r == Some(-(DigitsValue(s[1..]) as int))
  {
    if |s| > 1 && (s[0] == '+' || s[0] == '-') && AllDigits(s[1..]) then
      var magnitude: int := DigitsValue(s[1..]);
      Some(if s[0] == '-' then -magnitude else magnitude)
    else if |s| > 0 && AllDigits(s) then Some(DigitsValue(s))
    else None
  }

  predicate DateBefore(a: Date, b: Date) {
    a.year < b.year
    || (a.year == b.year && a.month < b.month)
    || (a.year == b.year && a.month == b.month && a.day < b.day)
  }

  /** LocalDateTime.isBefore. */
  predicate IsBefore(a: Timestamp, b: Timestamp) {
    DateBefore(a.date, b.date) || (a.date == b.date && a.nanoOfDay < b.nanoOfDay)
  }

  /** LocalDateTime.of(year, month, day, 0, 0). */
  function StartOfDay(d: Date): Timestamp {
    Timestamp(d, 0)
  }
}
