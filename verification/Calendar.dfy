/** Dates of messages: the closed forms for the seconds since 1970 and for the
    day of the week, against counting days by the Gregorian rule. */
module Calendar {
  import opened Bits

  const BASEYEAR: nat := 1970

  /** The date fields of a cache element; years count from 1970, and a month or a day
      of 0 stands for the first. */
  datatype Stamp = Stamp(year: nat, month: nat, day: nat, hours: nat, minutes: nat, seconds: nat,
                         zoccident: bool, zhours: nat, zminutes: nat)

  function MonthName(m: nat): string {
    match m
    case 1 => "Jan" case 2 => "Feb" case 3 => "Mar" case 4 => "Apr" case 5 => "May" case 6 => "Jun"
    case 7 => "Jul" case 8 => "Aug" case 9 => "Sep" case 10 => "Oct" case 11 => "Nov" case _ => "Dec"
  }

  const MONTHS: seq<string> :=
    ["Jan", "Feb", "Mar", "Apr", "May", "Jun", "Jul", "Aug", "Sep", "Oct", "Nov", "Dec"]

  lemma MonthsAre(m: nat)
    requires 1 <= m <= 12
    ensures MonthName(m) == MONTHS[m - 1]
  {
  }

  // ---- Counting days ----

  predicate Leap(y: nat) {
    y % 4 == 0 && (y % 100 != 0 || y % 400 == 0)
  }

  function MonthLength(y: nat, m: nat): nat {
    if m == 2 then (if Leap(y) then 29 else 28) else if m == 4 || m == 6 || m == 9 || m == 11 then 30 else 31
  }

  /** The days of the year before the month. */
  function DaysBefore(y: nat, m: nat): nat {
    if m <= 1 then 0 else DaysBefore(y, m - 1) + MonthLength(y, m - 1)
  }

  /** The days before the year, from 1970 on. */
  function DaysUntil(y: nat): nat {
    if y <= BASEYEAR then 0 else DaysUntil(y - 1) + (if Leap(y - 1) then 366 else 365)
  }

  /** The number of the day, 1-Jan-1970 being 0. */
  function DayNumber(e: Stamp): nat {
    var m := if e.month == 0 then 1 else e.month;
    DaysUntil(BASEYEAR + e.year) + DaysBefore(BASEYEAR + e.year, m) + (if e.day == 0 then 0 else e.day - 1)
  }

  /** The seconds since 1970 in UTC; before that, 0. */
  function Seconds(e: Stamp): nat {
    var local := DayNumber(e) * 1440 + e.hours * 60 + e.minutes;
    var zone := e.zhours * 60 + e.zminutes;
    if e.zoccident then (local + zone) * 60 + e.seconds
    else if local < zone then 0
    else (local - zone) * 60 + e.seconds
  }

  // ---- The closed forms of the source ----

  function Days(e: Stamp): int {
    var m := if e.month == 0 then 1 else e.month;
    var yr := e.year + BASEYEAR;
    (if e.day == 0 then 0 else e.day - 1)
    + 30 * (m - 1) + (m + (if m > 8 then 1 else 0)) / 2
    + (yr / 400 - BASEYEAR / 400) - (yr / 100 - BASEYEAR / 100)
    - (if m < 3 then (if yr % 4 == 0 && (yr % 100 != 0 || yr % 400 == 0) then 1 else 0) else 2)
    + e.year * 365 + (e.year + BASEYEAR % 4) / 4
  }

  /** mail_longdate. */
  function LongDate(e: Stamp): int {
    var ret := (Days(e) * 24 + e.hours) * 60 + e.minutes;
    var zone := e.zhours * 60 + e.zminutes;
    if e.zoccident then (ret + zone) * 60 + e.seconds
    else if ret < zone then 0
    else (ret - zone) * 60 + e.seconds
  }

  /** The day of the week in mail_cdate, 0 being Sunday; March is month 0. */
  function DayOfWeek(e: Stamp): nat {
    var d := if e.day == 0 then 1 else e.day;
    var m0 := if e.month == 0 then 0 else e.month - 1;
    var y := if m0 < 2 then e.year + BASEYEAR - 1 else e.year + BASEYEAR;
    var m := if m0 < 2 then m0 + 10 else m0 - 2;
    (d + 2 + (7 + 31 * m) / 12 + y / 400 - y / 100 + y + y / 4) % 7
  }

  // ---- They count days ----

  /** The leap days before the year. */
  function LeapDays(y: nat): int
    requires y > 0
  {
    (y - 1) / 4 - (y - 1) / 100 + (y - 1) / 400
  }

  lemma Quotient(y: nat, d: nat)
    requires y > 0 && d > 0
    ensures y / d == (y - 1) / d + if y % d == 0 then 1 else 0
  {
    var q, r := (y - 1) / d, (y - 1) % d;
    assert y - 1 == d * q + r;
    if r + 1 < d {
      ModUnique(y, d, q, r + 1);
    } else {
      assert d * (q + 1) == d * q + d;
      ModUnique(y, d, q + 1, 0);
    }
  }

  lemma LeapStep(y: nat)
    requires y > 0
    ensures LeapDays(y + 1) == LeapDays(y) + if Leap(y) then 1 else 0
    ensures y / 4 - y / 100 + y / 400 == LeapDays(y) + if Leap(y) then 1 else 0
  {
    Quotient(y, 4);
    Quotient(y, 100);
    Quotient(y, 400);
    Divisible(y);
  }

  lemma Divisible(y: nat)
    ensures y % 400 == 0 ==> y % 100 == 0
    ensures y % 100 == 0 ==> y % 4 == 0
  {
    Factor(y, 100, 4);
    Factor(y, 4, 25);
  }

  lemma Factor(y: nat, d: nat, k: nat)
    requires d > 0 && k > 0 && d * k > 0
    ensures y % (d * k) == 0 ==> y % d == 0
  {
    if y % (d * k) == 0 {
      var q := y / (d * k);
      assert y == d * k * q;
      assert d * k * q == d * (k * q);
      ModUnique(y, d, k * q, 0);
    }
  }

  lemma {:induction false} YearsCount(y: nat)
    requires y >= BASEYEAR
    ensures DaysUntil(y) == 365 * (y - BASEYEAR) + LeapDays(y) - LeapDays(BASEYEAR)
  {
    if y > BASEYEAR {
      YearsCount(y - 1);
      LeapStep(y - 1);
    }
  }

  lemma {:induction false} MonthsCount(y: nat, m: nat)
    requires 1 <= m <= 12
    ensures DaysBefore(y, m) ==
      30 * (m - 1) + (m + (if m > 8 then 1 else 0)) / 2 - (if m < 3 then 0 else if Leap(y) then 1 else 2)
  {
    if m > 1 {
      MonthsCount(y, m - 1);
    }
  }

  lemma DaysCount(e: Stamp)
    requires e.month <= 12
    ensures Days(e) == DayNumber(e)
  {
    var yr := e.year + BASEYEAR;
    YearsCount(yr);
    LeapStep(yr);
    MonthsCount(yr, if e.month == 0 then 1 else e.month);
    assert (e.year + 2) / 4 == yr / 4 - 492;
  }

  /** mail_longdate counts seconds, with its clamp at 1970. */
  lemma LongDateIsSeconds(e: Stamp)
    requires e.month <= 12
    ensures LongDate(e) == Seconds(e)
  {
    DaysCount(e);
  }

  /** What the days of the week before the month come to, in whole weeks. */
  /** The leap days up to the end of a year. */
  function Leaps(y: nat): (q: nat) {
    y / 4 - y / 100 + y / 400
  }

  /** The term of the month in the formula for the day of the week. */
  function MonthTerm(m: nat): nat
    requires 1 <= m
  {
    (7 + 31 * (if m < 3 then m + 9 else m - 3)) / 12
  }

  /** The days of a year before the month, but for the leap day. */
  function Past(m: nat): int
    requires 1 <= m
  {
    if m < 3 then 30 * (m - 1) + m / 2 else 30 * (m - 1) + (m + (if m > 8 then 1 else 0)) / 2 - 2
  }

  lemma MonthWeeks(m: nat) returns (k: int)
    requires 1 <= m <= 12
    ensures MonthTerm(m) - Past(m) + (if m < 3 then 719525 else 719526) == 7 * k
  {
    k := [102793, 102789, 102781, 102777, 102773, 102769, 102765, 102761, 102757, 102753, 102749, 102745][m - 1];
  }

  lemma SameWeekday(a: nat, b: nat, k: int)
    requires a == b + 7 * k
    ensures a % 7 == b % 7
  {
    ModUnique(a, 7, b / 7 + k, b % 7);
  }

  lemma DayNumberIs(e: Stamp)
    requires e.month <= 12
    ensures var yr, m := e.year + BASEYEAR, if e.month == 0 then 1 else e.month;
      DayNumber(e) ==
        (if e.day == 0 then 0 else e.day - 1) + 365 * yr - 719527 + Leaps(if m < 3 then yr - 1 else yr) + Past(m)
  {
    var yr := e.year + BASEYEAR;
    YearsCount(yr);
    LeapStep(yr);
    MonthsCount(yr, if e.month == 0 then 1 else e.month);
  }

  /** mail_cdate names the right day of the week: 1-Jan-1970 was a Thursday. */
  lemma DayOfWeekIsRight(e: Stamp)
    requires e.month <= 12
    ensures DayOfWeek(e) == (DayNumber(e) + 4) % 7
  {
    var f, k := DaySum(e);
    hide DayNumber;
    SameWeekday(f, DayNumber(e) + 4, k);
  }

  lemma DaySum(e: Stamp) returns (f: nat, k: int)
    requires e.month <= 12
    ensures f == DayNumber(e) + 4 + 7 * k && f % 7 == DayOfWeek(e)
  {
    hide DayNumber, DayOfWeek, MonthTerm, Past, Leaps;
    var yr, m := e.year + BASEYEAR, if e.month == 0 then 1 else e.month;
    var y := if m < 3 then yr - 1 else yr;
    f := (if e.day == 0 then 1 else e.day) + 2 + MonthTerm(m) + Leaps(y) + y;
    DayOfWeekIs(e);
    DayNumberIs(e);
    k := MonthWeeks(m);
    k := k - 52 * yr;
  }

  lemma DayOfWeekIs(e: Stamp)
    requires e.month <= 12
    ensures var yr, m := e.year + BASEYEAR, if e.month == 0 then 1 else e.month;
      var y := if m < 3 then yr - 1 else yr;
      ((if e.day == 0 then 1 else e.day) + 2 + MonthTerm(m) + Leaps(y) + y) % 7 == DayOfWeek(e)
  {
  }

  lemma StartOf2000()
    ensures Days(Stamp(30, 1, 1, 0, 0, 0, false, 0, 0)) == 10957
  {
  }

  lemma LeapDayOf2004()
    ensures Days(Stamp(34, 2, 29, 12, 0, 0, true, 8, 30)) == 12477
  {
  }

  lemma EndOf2097()
    ensures Days(Stamp(127, 12, 31, 23, 59, 59, false, 1, 15)) == 46751
  {
  }

  lemma KnownWeekdays()
    ensures DayOfWeek(Stamp(30, 1, 1, 0, 0, 0, false, 0, 0)) == 6
    ensures DayOfWeek(Stamp(34, 2, 29, 0, 0, 0, false, 0, 0)) == 0
    ensures DayOfWeek(Stamp(127, 12, 31, 0, 0, 0, false, 0, 0)) == 2
  {
  }

  /** The first second of 2000, noon in the west on a leap day, and the last second of
      2097 in the east. */
  lemma KnownDates()
    ensures LongDate(Stamp(30, 1, 1, 0, 0, 0, false, 0, 0)) == 946684800
    ensures LongDate(Stamp(34, 2, 29, 12, 0, 0, true, 8, 30)) == 1078086600
    ensures LongDate(Stamp(127, 12, 31, 23, 59, 59, false, 1, 15)) == 4039368299
  {
    StartOf2000();
    LeapDayOf2004();
    EndOf2097();
    hide Days;
  }
}
