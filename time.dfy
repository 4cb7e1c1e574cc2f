/** The part of Go's `time` package the core relies on: a parsed timestamp
    and its "2006-01-02" date rendering. The ranges are those a value parsed
    with the layout "2006-01-02 15:04:05" can have. */
module Time {

  type Year = y: int | 0 <= y <= 9999
  type Month = m: int | 1 <= m <= 12 witness 1
  type Day = d: int | 1 <= d <= 31 witness 1
  type Hour = h: int | 0 <= h <= 23
  type Minute = m: int | 0 <= m <= 59
  type Second = s: int | 0 <= s <= 59
  type Nanosecond = n: int | 0 <= n <= 999_999_999

  /** A `time.Time` in UTC (the parse layout carries no zone). */
  datatype DateTime = DateTime(
    year: Year, month: Month, day: Day,
    hour: Hour, minute: Minute, second: Second, nanosecond: Nanosecond)

  function Digit(n: int): char
    requires 0 <= n <= 9
  {
    (n + 48) as char
  }

  /** The decimal value of a string of ASCII digits. */
  function DigitsValue(s: string): int
    decreases |s|
  {
    if s == [] then 0 else 10 * DigitsValue(s[..|s| - 1]) + (s[|s| - 1] as int - 48)
  }

  /** `n` written with exactly `width` digits, zero-padded on the left. */
  function Padded(n: nat, width: nat): (s: string)
    requires n < Pow10(width)
    ensures |s| == width
    ensures forall k :: 0 <= k < |s| ==> '0' <= s[k] <= '9'
    ensures DigitsValue(s) == n
  {
    if width == 0 then ""
    else
      var s := Padded(n / 10, width - 1) + [Digit(n % 10)];
      assert s[..|s| - 1] == Padded(n / 10, width - 1);
      s
  }

  function Pow10(k: nat): nat
  {
    if k == 0 then 1 else 10 * Pow10(k - 1)
  }

  /** The calendar day of a timestamp. */
  datatype Date = Date(year: Year, month: Month, day: Day)

  function DateOf(t: DateTime): Date
  {
    Date(t.year, t.month, t.day)
  }

  /** `t.Format("2006-01-02")` of any `t` on day `d`: four-digit year,
      two-digit month and day, so the rendering always has ten characters,
      with dashes at positions 4 and 7 and decimal digits everywhere else,
      and each field reads back as the number it renders. */
  function FormatDate(d: Date): (s: string)
    ensures |s| == 10 && s[4] == '-' && s[7] == '-'
    ensures forall k :: 0 <= k < 10 && k != 4 && k != 7 ==> '0' <= s[k] <= '9'
    ensures DigitsValue(s[..4]) == d.year
    ensures DigitsValue(s[5..7]) == d.month
    ensures DigitsValue(s[8..]) == d.day
  {
    DateLayout(Padded(d.year, 4), Padded(d.month, 2), Padded(d.day, 2));
    Padded(d.year, 4) + "-" + Padded(d.month, 2) + "-" + Padded(d.day, 2)
  }

  /** Where the three digit fields and the two dashes of a rendered date
      sit. */
  lemma DateLayout(y: string, m: string, d: string)
    requires |y| == 4 && |m| == 2 && |d| == 2
    requires forall k :: 0 <= k < |y| ==> '0' <= y[k] <= '9'
    requires forall k :: 0 <= k < |m| ==> '0' <= m[k] <= '9'
    requires forall k :: 0 <= k < |d| ==> '0' <= d[k] <= '9'
    ensures var s := y + "-" + m + "-" + d;
            && |s| == 10 && s[4] == '-' && s[7] == '-'
            && s[..4] == y && s[5..7] == m && s[8..] == d
            && forall k :: 0 <= k < 10 && k != 4 && k != 7 ==> '0' <= s[k] <= '9'
  {
    var s := y + "-" + m + "-" + d;
    assert s[..4] == y;
    assert s[5..7] == m;
    assert s[8..] == d;
    forall k | 0 <= k < 10 && k != 4 && k != 7 ensures '0' <= s[k] <= '9' {
      if k < 4 { assert s[k] == y[k]; }
      else if k < 7 { assert s[k] == m[k - 5]; }
      else { assert s[k] == d[k - 8]; }
    }
  }

  /** Two days format to the same string exactly when they are the same
      day, so grouping by the formatted date groups by calendar day. */
  lemma FormatDateInjective(a: Date, b: Date)
    ensures FormatDate(a) == FormatDate(b) <==> a == b
  {
    if FormatDate(a) == FormatDate(b) {
      var f := FormatDate(a);
      assert a.year == DigitsValue(f[..4]) == b.year;
      assert a.month == DigitsValue(f[5..7]) == b.month;
      assert a.day == DigitsValue(f[8..]) == b.day;
    }
  }
}
