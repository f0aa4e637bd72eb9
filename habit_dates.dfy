/** Dates as the habit tracker sees them: the `YYYY-MM-DD` keys built by
    `formatDateStringHelper` (src/store/habits.js) and the day-by-day backward step
    of the streak walk (`checkDate.setDate(checkDate.getDate() - 1)`). */
module HabitDates {

  /** A local date as a JS `Date` reports it: `getFullYear()`, `getMonth() + 1`
      (so months run 1..12 here) and `getDate()`. */
  datatype Date = Date(year: int, month: int, day: int)

  /** Leap years of the proleptic Gregorian calendar, as JS dates use it. */
  predicate LeapYear(y: int) {
    y % 4 == 0 && (y % 100 != 0 || y % 400 == 0)
  }

  function DaysInMonth(y: int, m: int): (n: int)
    requires 1 <= m <= 12
    ensures 28 <= n <= 31
  {
    if m == 2 then (if LeapYear(y) then 29 else 28)
    else if m == 4 || m == 6 || m == 9 || m == 11 then 30
    else 31
  }

  predicate ValidDate(d: Date) {
    1 <= d.month <= 12 && 1 <= d.day <= DaysInMonth(d.year, d.month)
  }

  /** Strictly earlier in time (lexicographic on year, month, day). */
  predicate Before(a: Date, b: Date) {
    a.year < b.year ||
    (a.year == b.year && (a.month < b.month || (a.month == b.month && a.day < b.day)))
  }

  /** The day before: `setDate(getDate() - 1)` rolls day 0 back into the last day of
      the previous month, and January into December of the previous year. */
  function Prev(d: Date): (p: Date)
    requires ValidDate(d)
    ensures ValidDate(p) && Before(p, d)
    ensures d.day > 1 ==> p == Date(d.year, d.month, d.day - 1)
    ensures d.day == 1 && d.month > 1 ==> p == Date(d.year, d.month - 1, DaysInMonth(d.year, d.month - 1))
    ensures d.day == 1 && d.month == 1 ==> p == Date(d.year - 1, 12, 31)
  {
    if d.day > 1 then Date(d.year, d.month, d.day - 1)
    else if d.month > 1 then Date(d.year, d.month - 1, DaysInMonth(d.year, d.month - 1))
    else Date(d.year - 1, 12, 31)
  }

  /** The date `n` days before `d`. */
  function Back(d: Date, n: nat): (r: Date)
    requires ValidDate(d)
    ensures ValidDate(r)
  {
    if n == 0 then d else Prev(Back(d, n - 1))
  }

  /** Going further back always lands strictly earlier. */
  lemma {:induction false} BackBefore(d: Date, j: nat, k: nat)
    requires ValidDate(d) && j < k
    ensures Before(Back(d, k), Back(d, j))
  {
    if k - 1 > j {
      BackBefore(d, j, k - 1);
    }
  }

  function Digit(n: int): (c: char)
    requires 0 <= n < 10
    ensures '0' <= c <= '9'
  {
    (48 + n) as char
  }

  /** `String(n)` for a non-negative integer: its decimal digits, no leading zeros. */
  function NatString(n: nat): (s: string)
    ensures |s| >= 1 && (|s| == 1 <==> n < 10)
    ensures '0' <= s[0] <= '9' && s[|s| - 1] == Digit(n % 10)
  {
    if n < 10 then [Digit(n)] else NatString(n / 10) + [Digit(n % 10)]
  }

  /** `String(n)` for any integer: a minus sign before the digits of a negative one. */
  function IntString(n: int): (s: string)
    ensures |s| >= 1 && (s[0] == '-' <==> n < 0)
  {
    if n < 0 then "-" + NatString(-n) else NatString(n)
  }

  /** `String(n).padStart(2, '0')`. */
  function Pad2(n: int): (s: string)
    ensures 0 <= n < 100 ==> s == [Digit(n / 10), Digit(n % 10)]
  {
    var s := IntString(n);
    if |s| < 2 then "0" + s else s
  }

  /** `formatDateStringHelper`: `${year}-${month}-${day}` with month and day padded to
      two digits. */
  function FormatDateString(d: Date): string
  {
    IntString(d.year) + "-" + Pad2(d.month) + "-" + Pad2(d.day)
  }

  /** The key splits into the year's digits and a fixed-width six-character tail. */
  lemma FormatParts(d: Date)
    requires ValidDate(d)
    ensures var s := FormatDateString(d);
            |s| > 6 && s[..|s| - 6] == IntString(d.year) &&
            s[|s| - 6..] == "-" + Pad2(d.month) + "-" + Pad2(d.day)
  {
  }

  lemma {:induction false} NatStringInjective(a: nat, b: nat)
    requires NatString(a) == NatString(b)
    ensures a == b
  {
    var s := NatString(a);
    assert Digit(a % 10) == Digit(b % 10);
    if a >= 10 {
      assert NatString(a / 10) == s[..|s| - 1] == NatString(b / 10);
      NatStringInjective(a / 10, b / 10);
    }
  }

  lemma IntStringInjective(a: int, b: int)
    requires IntString(a) == IntString(b)
    ensures a == b
  {
    if a < 0 {
      assert NatString(-a) == IntString(a)[1..] == NatString(-b);
      NatStringInjective(-a, -b);
    } else {
      NatStringInjective(a, b);
    }
  }

  /** Distinct valid dates give distinct keys, so every step of the streak walk reads a
      different entry of the day map. */
  lemma FormatPairInjective(a: Date, b: Date)
    requires ValidDate(a) && ValidDate(b)
    ensures FormatDateString(a) == FormatDateString(b) ==> a == b
  {
    var s := FormatDateString(a);
    if s == FormatDateString(b) {
      FormatParts(a);
      FormatParts(b);
      IntStringInjective(a.year, b.year);
      var tail := s[|s| - 6..];
      assert tail[1..3] == Pad2(a.month) == Pad2(b.month);
      assert tail[4..] == Pad2(a.day) == Pad2(b.day);
    }
  }
}
