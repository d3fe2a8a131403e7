/** Dates as text: mail_date and mail_parse_date. */
module Dates {
  import opened Messages
  import opened Texts
  import opened Calendar

  const MAXYEAR: nat := BASEYEAR + 127
  const MAILTMPLEN: nat := 1024

  // ---- Writing ----

  function Two(n: nat): string {
    (if n < 10 then "0" else "") + Decimal(n)
  }

  function Pad(n: nat): string {
    (if n < 10 then " " else "") + Decimal(n)
  }

  /** The ways to write a date that the parser knows. */
  datatype Style = Dashed | Spaced | Iso | Slashed | Compact

  /** A date with `y` as the text of its year. */
  function DateText(style: Style, e: Stamp, y: string): string {
    match style
    case Dashed => Pad(e.day) + ("-" + (MonthName(e.month) + ("-" + y)))
    case Spaced => Pad(e.day) + (" " + (MonthName(e.month) + (" " + y)))
    case Iso => y + ("-" + (Two(e.month) + ("-" + Two(e.day))))
    case Slashed => Two(e.month) + ("/" + (Two(e.day) + ("/" + y)))
    case Compact => y + (Two(e.month) + Two(e.day))
  }

  function ZoneText(e: Stamp): string {
    (if e.zoccident then "-" else "+") + (Two(e.zhours) + Two(e.zminutes))
  }

  /** The time and the text of a zone. */
  function ClockText(e: Stamp, zone: string): string {
    " " + (Two(e.hours) + (":" + (Two(e.minutes) + (":" + (Two(e.seconds) + (" " + zone))))))
  }

  function TimeText(e: Stamp): string {
    ClockText(e, ZoneText(e))
  }

  /** The first of a month or of a year where there is none. */
  function Normal(e: Stamp): Stamp {
    e.(day := if e.day == 0 then 1 else e.day, month := if e.month == 0 then 1 else e.month)
  }

  /** mail_date. */
  function MailDate(e: Stamp): string {
    DateText(Dashed, Normal(e), Decimal(e.year + BASEYEAR)) + TimeText(e)
  }

  lemma TwoSpelled(n: nat)
    requires n < 100
    ensures Two(n) == [(n / 10) as char + '0', (n % 10) as char + '0']
    ensures Pad(n) == [if n < 10 then ' ' else (n / 10) as char + '0', (n % 10) as char + '0']
  {
    assert Decimal(n) == if n < 10 then [Digit(n)] else [Digit(n / 10)] + [Digit(n % 10)];
  }

  /** The text of a date and time, blank for blank. */
  lemma MailDateSpelled(e: Stamp)
    requires 1 <= e.day <= 31 && 1 <= e.month <= 12
    ensures MailDate(e) ==
      Pad(e.day) + "-" + MONTHS[e.month - 1] + "-" + Decimal(1970 + e.year) + " " + Two(e.hours) + ":" + Two(e.minutes)
      + ":" + Two(e.seconds) + " " + (if e.zoccident then "-" else "+") + Two(e.zhours) + Two(e.zminutes)
  {
    MonthsAre(e.month);
    hide MonthName, Two, Pad, Decimal;
    Joined(Pad(e.day), MonthName(e.month), Decimal(1970 + e.year), Two(e.hours), Two(e.minutes), Two(e.seconds),
           if e.zoccident then "-" else "+", Two(e.zhours), Two(e.zminutes));
  }

  lemma Joined(d: string, m: string, y: string, h: string, i: string, s: string, z: string, zh: string, zm: string)
    ensures d + ("-" + (m + ("-" + y))) + (" " + (h + (":" + (i + (":" + (s + (" " + (z + (zh + zm)))))))))
      == d + "-" + m + "-" + y + " " + h + ":" + i + ":" + s + " " + z + zh + zm
  {
  }

  // ---- Reading ----

  function Upper(s: string): (r: string)
    ensures |r| == |s|
  {
    seq(|s|, i requires 0 <= i < |s| => if 'a' <= s[i] <= 'z' then s[i] - 32 as char else s[i])
  }

  predicate IsAlpha(c: char) {
    'A' <= c <= 'Z' || 'a' <= c <= 'z'
  }

  /** The character at a place, or NUL behind the end. */
  function At(s: string, i: nat): char {
    if i < |s| then s[i] else 0 as char
  }

  /** The compressed form of three letters. */
  function Code(a: char, b: char, c: char): int {
    (a as int - 'A' as int) * 1024 + (b as int - 'A' as int) * 32 + (c as int - 'A' as int)
  }

  function MonthOf(code: int): (m: nat) {
    if code == Code('J', 'A', 'N') then 1 else if code == Code('F', 'E', 'B') then 2
    else if code == Code('M', 'A', 'R') then 3 else if code == Code('A', 'P', 'R') then 4
    else if code == Code('M', 'A', 'Y') then 5 else if code == Code('J', 'U', 'N') then 6
    else if code == Code('J', 'U', 'L') then 7 else if code == Code('A', 'U', 'G') then 8
    else if code == Code('S', 'E', 'P') then 9 else if code == Code('O', 'C', 'T') then 10
    else if code == Code('N', 'O', 'V') then 11 else if code == Code('D', 'E', 'C') then 12
    else 0
  }

  lemma {:induction false} MonthRead(m: nat)
    requires 1 <= m <= 12
    ensures |MonthName(m)| == 3
    ensures var u := Upper(MonthName(m)); MonthOf(Code(u[0], u[1], u[2])) == m && IsAlpha(u[0]) && !IsDigit(u[0])
  {
    var s := MonthName(m);
    var u := Upper(s);
    assert u == [u[0], u[1], u[2]];
  }

  lemma UpperAppend(a: string, b: string)
    ensures Upper(a + b) == Upper(a) + Upper(b)
  {
  }

  lemma UpperSame(s: string)
    requires forall i | 0 <= i < |s| :: !('a' <= s[i] <= 'z')
    ensures Upper(s) == s
  {
  }

  lemma {:induction false} DigitsUpper(n: nat)
    ensures Upper(Decimal(n)) == Decimal(n) && Upper(Two(n)) == Two(n) && Upper(Pad(n)) == Pad(n)
  {
    DecimalValue(n);
    UpperSame(Decimal(n));
    UpperSame(Two(n));
    UpperSame(Pad(n));
  }

  /** Two digits are read like the number. */
  lemma TwoRead(n: nat, tail: string)
    requires n <= ULONGMAX && (tail == "" || !IsDigit(tail[0]))
    ensures Strtoul(Two(n) + tail) == (n, tail) && Strtoul(Decimal(n) + tail) == (n, tail)
    ensures Strtoul(Pad(n) + tail) == (n, tail)
    ensures IsDigit(Two(n)[0]) && IsDigit(Decimal(n)[0])
  {
    StrtoulRead(n, tail);
    DecimalValue(n);
    hide Strtoul, Decimal;
    if n < 10 {
      PaddedRead(n, tail);
    } else {
      assert "" + Decimal(n) == Decimal(n);
    }
  }

  lemma PaddedRead(n: nat, tail: string)
    requires n < 10 && (tail == "" || !IsDigit(tail[0]))
    ensures Strtoul(Two(n) + tail) == (n, tail) && Strtoul(Pad(n) + tail) == (n, tail)
  {
    DecimalValue(n);
    StrtoulRead(n, tail);
    assert Pad(n) + tail == " " + (Decimal(n) + tail);
    SkipOne(Decimal(n) + tail);
    ZeroValue(Decimal(n));
    hide Decimal, Value;
    StrtoulDigits("0" + Decimal(n), tail);
  }

  lemma {:induction false} SkipOne(t: string)
    ensures Strtoul(" " + t).0 == Strtoul(t).0
  {
    assert (" " + t)[1..] == t;
  }

  lemma {:induction false} ZeroValue(d: string)
    requires |d| == 1
    ensures Value("0" + d) == Value(d)
  {
    assert ("0" + d)[..1] == "0" && "0"[..0] == "" && d[..0] == "";
  }

  predicate DateFine(e: Stamp) {
    1 <= e.day <= 31 && 1 <= e.month <= 12
  }

  /** Digits, however many, whose number is in range. */
  predicate IsYear(y: string) {
    y != "" && (forall i | 0 <= i < |y| :: IsDigit(y[i])) && Value(y) <= ULONGMAX
  }

  lemma YearRead(y: string, tail: string)
    requires IsYear(y) && (tail == "" || !IsDigit(tail[0]))
    ensures Strtoul(y + tail) == (Value(y), tail) && Unspaced(y + tail) == y + tail
    ensures Upper(y) == y && IsDigit(y[0]) && IsDigit(At(y + tail, 0))
  {
    StrtoulDigits(y, tail);
    UnspacedSolid(y + tail);
    UpperSame(y);
  }

  lemma YearDecimal(n: nat)
    requires n <= ULONGMAX
    ensures IsYear(Decimal(n)) && Value(Decimal(n)) == n
  {
    DecimalValue(n);
  }

  /** After a date there may be a time if the month has a name. */
  predicate Follows(style: Style, tail: string) {
    tail == "" || ((style == Dashed || style == Spaced) && tail[0] == ' ')
  }

  /** mm/dd/yy from the first '/' on. */
  method ParseSlashed(s0: string, ghost e: Stamp, ghost year: string) returns (r: Option<(nat, nat)>)
    requires s0 != ""
    ensures DateFine(e) && IsYear(year) && s0 == "/" + (Two(e.day) + ("/" + year)) ==> r == Some((e.day, Value(year)))
  {
    hide Strtoul, Two, Decimal, Value, Unspaced, Upper;
    if DateFine(e) && IsYear(year) && s0 == "/" + (Two(e.day) + ("/" + year)) {
      TwoRead(e.day, "/" + year);
      YearRead(year, "");
      TwoStarts(e.day, "/" + year);
      assert s0[1..] == Two(e.day) + ("/" + year);
      assert ("/" + year)[1..] == year == year + "";
    }
    hide IsYear;
    r := None;
    var s := s0[1..];
    if !IsDigit(At(s, 0)) {
      return;
    }
    var (d, t) := Strtoul(s);
    if d == 0 || At(t, 0) != '/' {
      return;
    }
    t := t[1..];
    if !IsDigit(At(t, 0)) {
      return;
    }
    var (y, u) := Strtoul(t);
    if u == "" {
      r := Some((d, y));
    }
  }

  lemma {:induction false} TwoStarts(n: nat, tail: string)
    requires n <= ULONGMAX && (tail == "" || !IsDigit(tail[0]))
    ensures IsDigit(At(Two(n) + tail, 0)) && IsDigit(At(Decimal(n) + tail, 0))
    ensures (n >= 10 ==> Two(n) == Pad(n) == Decimal(n))
  {
    DecimalValue(n);
    assert n >= 10 ==> "" + Decimal(n) == Decimal(n);
  }

  /** yyyy-mm-dd from the first '-' on. */
  method ParseIso(s0: string, ghost e: Stamp) returns (r: Option<(nat, nat)>)
    requires s0 != ""
    ensures DateFine(e) && s0 == "-" + (Two(e.month) + ("-" + Two(e.day))) ==> r == Some((e.month, e.day))
  {
    hide Strtoul, Two;
    if DateFine(e) && s0 == "-" + (Two(e.month) + ("-" + Two(e.day))) {
      TwoRead(e.month, "-" + Two(e.day));
      TwoRead(e.day, "");
      assert s0[1..] == Two(e.month) + ("-" + Two(e.day));
      assert ("-" + Two(e.day))[1..] == Two(e.day) == Two(e.day) + "";
    }
    r := None;
    var (m, t) := Strtoul(s0[1..]);
    if m == 0 || At(t, 0) != '-' {
      return;
    }
    var (d, u) := Strtoul(t[1..]);
    if d != 0 && u == "" {
      r := Some((m, d));
    }
  }

  predicate NamedAt(s: string, e: Stamp, year: string, c: char, tail: string) {
    && DateFine(e) && IsYear(year) && (c == '-' || c == ' ') && (tail == "" || tail[0] == ' ')
    && s == [c] + (Upper(MonthName(e.month)) + ([c] + (year + tail)))
  }

  /** The name of a month and a year, from the delimiter before the month on. */
  method ParseNamed(s0: string, ghost e: Stamp, ghost year: string, ghost c: char, ghost tail: string)
    returns (r: Option<(nat, nat)>, s: string)
    requires s0 != ""
    ensures NamedAt(s0, e, year, c, tail) ==> r == Some((e.month, Value(year))) && s == tail
  {
    hide Strtoul, Decimal, MonthOf, MonthName, Upper, Value, Unspaced;
    if NamedAt(s0, e, year, c, tail) {
      MonthRead(e.month);
      YearRead(year, tail);
      assert s0[5..] == year + tail;
    }
    hide IsYear;
    r, s := None, "";
    if |s0| < 5 {
      return;
    }
    var m := MonthOf(Code(s0[1], s0[2], s0[3]));
    if m == 0 {
      return;
    }
    if s0[4] == s0[0] {
      s := s0[5..];
    } else {
      s := s0[4..];
      while s != "" && IsAlpha(s[0])
        decreases |s|
      {
        s := s[1..];
      }
      if s == "" || s[0] != s0[0] {
        return;
      }
      s := s[1..];
    }
    while s != "" && s[0] == ' '
      invariant s0[4] == s0[0] && |s0| > 5 && s0[5] != ' ' ==> s == s0[5..]
      decreases |s|
    {
      s := s[1..];
    }
    if !IsDigit(At(s, 0)) {
      return;
    }
    var (y, t) := Strtoul(s);
    s := t;
    if s == "" || s[0] == ' ' {
      r := Some((m, y));
    }
  }

  /** The text of the date in upper case. */
  function DayText(style: Style, e: Stamp, y: string): string {
    var mon := Upper(MonthName(e.month));
    match style
    case Dashed => Pad(e.day) + ("-" + (mon + ("-" + y)))
    case Spaced => Pad(e.day) + (" " + (mon + (" " + y)))
    case Iso => y + ("-" + (Two(e.month) + ("-" + Two(e.day))))
    case Slashed => Two(e.month) + ("/" + (Two(e.day) + ("/" + y)))
    case Compact => y + (Two(e.month) + Two(e.day))
  }

  lemma DateUpper(style: Style, e: Stamp, y: string)
    requires IsYear(y)
    ensures Upper(DateText(style, e, y)) == DayText(style, e, y)
  {
    hide Upper, Two, Pad, Decimal, MonthName, Value, Strtoul, Unspaced;
    DigitsUpper(e.day);
    DigitsUpper(e.month);
    YearRead(y, "");
    var mon := MonthName(e.month);
    SignsUpper();
    match style {
      case Dashed =>
        UpperAppend("-", y);
        UpperAppend(mon, "-" + y);
        UpperAppend("-", mon + ("-" + y));
        UpperAppend(Pad(e.day), "-" + (mon + ("-" + y)));
      case Spaced =>
        UpperAppend(" ", y);
        UpperAppend(mon, " " + y);
        UpperAppend(" ", mon + (" " + y));
        UpperAppend(Pad(e.day), " " + (mon + (" " + y)));
      case Iso =>
        UpperAppend("-", Two(e.day));
        UpperAppend(Two(e.month), "-" + Two(e.day));
        UpperAppend("-", Two(e.month) + ("-" + Two(e.day)));
        UpperAppend(y, "-" + (Two(e.month) + ("-" + Two(e.day))));
      case Slashed =>
        UpperAppend("/", y);
        UpperAppend(Two(e.day), "/" + y);
        UpperAppend("/", Two(e.day) + ("/" + y));
        UpperAppend(Two(e.month), "/" + (Two(e.day) + ("/" + y)));
      case Compact =>
        UpperAppend(Two(e.month), Two(e.day));
        UpperAppend(y, Two(e.month) + Two(e.day));
    }
  }

  lemma {:induction false} SignsUpper()
    ensures Upper("-") == "-" && Upper(" ") == " " && Upper("/") == "/" && Upper(":") == ":" && Upper("+") == "+"
  {
    UpperSame("-");
    UpperSame(" ");
    UpperSame("/");
    UpperSame(":");
    UpperSame("+");
  }

  // ---- Compact dates ----

  lemma TwoIs(n: nat)
    requires n < 100
    ensures Two(n) == [Digit(n / 10), Digit(n % 10)]
  {
    assert "" + Decimal(n) == Decimal(n);
    if n >= 10 {
      assert Decimal(n / 10) == [Digit(n / 10)];
    } else {
      assert Decimal(n) == [Digit(n)];
    }
  }

  lemma ValueTwo(a: string, n: nat)
    requires n < 100
    ensures Value(a + Two(n)) == Value(a) * 100 + n
  {
    TwoIs(n);
    var b := a + [Digit(n / 10)];
    assert a + Two(n) == b + [Digit(n % 10)];
    assert (b + [Digit(n % 10)])[..|b|] == b;
    assert b[..|a|] == a;
  }

  lemma CompactRead(e: Stamp, y: string)
    requires DateFine(e) && IsYear(y) && |y| == 4
    ensures var t := DayText(Compact, e, y);
      && t != "" && t[0] != ' ' && IsDigit(t[0])
      && Strtoul(t) == (Value(y) * 10000 + e.month * 100 + e.day, "")
  {
    hide Decimal, Two, Value, Strtoul;
    var t := y + Two(e.month) + Two(e.day);
    assert DayText(Compact, e, y) == t;
    hide DayText;
    CompactDigits(e, y);
    FourDigits(y);
    DigitsRead(t);
  }

  lemma {:induction false} FourDigits(y: string)
    requires |y| == 4 && forall i | 0 <= i < 4 :: IsDigit(y[i])
    ensures Value(y) <= 9999
  {
    assert y[..3][..2] == y[..2] && y[..2][..1] == y[..1] && y[..1][..0] == "";
    assert Value(y[..1]) <= 9;
    assert Value(y[..2]) <= 99;
    assert Value(y[..3]) <= 999;
  }

  lemma CompactDigits(e: Stamp, y: string)
    requires DateFine(e) && IsYear(y)
    ensures var t := y + Two(e.month) + Two(e.day);
      && t != "" && t[0] != ' ' && (forall i | 0 <= i < |t| :: IsDigit(t[i]))
      && Value(t) == Value(y) * 10000 + e.month * 100 + e.day
  {
    ValueTwo(y, e.month);
    ValueTwo(y + Two(e.month), e.day);
    TwoIs(e.month);
    TwoIs(e.day);
    hide Decimal, Value, Two;
  }

  lemma DigitsRead(t: string)
    requires t != "" && (forall i | 0 <= i < |t| :: IsDigit(t[i])) && Value(t) <= ULONGMAX
    ensures Strtoul(t) == (Value(t), "")
  {
    assert t + "" == t;
    StrtoulDigits(t, "");
  }

  lemma {:induction false} StrtoulDigits(d: string, tail: string)
    requires d != "" && (forall i | 0 <= i < |d| :: IsDigit(d[i])) && Value(d) <= ULONGMAX
    requires tail == "" || !IsDigit(tail[0])
    ensures Strtoul(d + tail) == (Value(d), tail)
  {
    hide Value;
    RunExact(d, tail, IsDigit);
    var t := d + tail;
    assert t[0] == d[0] && IsDigit(t[0]);
    assert SkipSpaces(t) == t;
    assert t[..|d|] == d && t[|d|..] == tail;
  }

  // ---- The date ----

  /** A compact date needs four digits for a year from 1970 on. */
  predicate YearFor(style: Style, y: string) {
    IsYear(y) && (style == Compact ==> |y| == 4 && Value(y) >= BASEYEAR)
  }

  /** The number that comes first, and what follows it. */
  function FirstOf(style: Style, e: Stamp, y: string): nat {
    match style
    case Dashed => e.day
    case Spaced => e.day
    case Iso => Value(y)
    case Slashed => e.month
    case Compact => Value(y) * 10000 + e.month * 100 + e.day
  }

  function RestOf(style: Style, e: Stamp, y: string, tail: string): string {
    var mon := Upper(MonthName(e.month));
    match style
    case Dashed => "-" + (mon + ("-" + (y + tail)))
    case Spaced => " " + (mon + (" " + (y + tail)))
    case Iso => "-" + (Two(e.month) + ("-" + Two(e.day)))
    case Slashed => "/" + (Two(e.day) + ("/" + y))
    case Compact => ""
  }

  lemma {:induction false} PadUnspaced(n: nat, rest: string)
    ensures Unspaced(Pad(n) + rest) == Decimal(n) + rest && Unspaced(Two(n) + rest) == Two(n) + rest
    ensures Unspaced(Decimal(n) + rest) == Decimal(n) + rest
  {
    DecimalValue(n);
    UnspacedSolid(Decimal(n) + rest);
    UnspacedSolid(Two(n) + rest);
    if n < 10 {
      assert (Pad(n) + rest)[1..] == Decimal(n) + rest;
    } else {
      assert Pad(n) == Decimal(n);
    }
  }

  lemma DayStart(style: Style, e: Stamp, y: string, tail: string)
    requires DateFine(e) && YearFor(style, y) && Follows(style, tail)
    ensures Strtoul(Unspaced(DayText(style, e, y) + tail)) == (FirstOf(style, e, y), RestOf(style, e, y, tail))
    ensures FirstOf(style, e, y) != 0 <==> style != Iso || Value(y) > 0
  {
    hide Strtoul, Unspaced, Two, Pad, Decimal, Upper, MonthName, Value;
    var rest := RestOf(style, e, y, tail);
    match style {
      case Dashed =>
        assert DayText(style, e, y) + tail == Pad(e.day) + rest;
        PadUnspaced(e.day, rest);
        TwoRead(e.day, rest);
      case Spaced =>
        assert DayText(style, e, y) + tail == Pad(e.day) + rest;
        PadUnspaced(e.day, rest);
        TwoRead(e.day, rest);
      case Iso =>
        assert DayText(style, e, y) + tail == y + rest;
        YearRead(y, rest);
      case Slashed =>
        assert DayText(style, e, y) + tail == Two(e.month) + rest;
        PadUnspaced(e.month, rest);
        TwoRead(e.month, rest);
      case Compact =>
        CompactRead(e, y);
        assert DayText(style, e, y) + tail == DayText(style, e, y);
        UnspacedSolid(DayText(style, e, y));
    }
  }

  lemma {:induction false} RestFacts(style: Style, e: Stamp, y: string, tail: string)
    requires DateFine(e) && YearFor(style, y) && Follows(style, tail)
    ensures var t := RestOf(style, e, y, tail);
      && (style == Dashed ==> At(t, 0) == '-' && NamedAt(t, e, y, '-', tail))
      && (style == Spaced ==> At(t, 0) == ' ' && NamedAt(t, e, y, ' ', tail))
      && (style == Dashed || style == Spaced ==> !IsDigit(At(t, 1)) && At(t, 1) != ' ')
      && (style == Iso ==> At(t, 0) == '-' && IsDigit(At(t, 1)))
      && (style == Slashed ==> At(t, 0) == '/')
  {
    hide Upper, MonthName, Two, IsYear;
    MonthRead(e.month);
    TwoStarts(e.month, "");
    assert Two(e.month) + "" == Two(e.month);
  }

  /** The date in any of its styles: day, month and year, and what follows. */
  method ParseDay(s0: string, ghost style: Style, ghost e: Stamp, ghost year: string, ghost tail: string)
    returns (r: Option<(nat, nat, nat)>, s: string)
    ensures s0 == DayText(style, e, year) + tail && DateFine(e) && YearFor(style, year) && Follows(style, tail) ==>
      if style == Iso && Value(year) == 0 then r == None
      else r == Some((e.day, e.month, Value(year))) && s == tail
  {
    hide Strtoul, Unspaced, NamedAt, Two, Decimal, DayText, MonthName, Upper, Value, IsYear;
    ghost var good :=
      s0 == DayText(style, e, year) + tail && DateFine(e) && YearFor(style, year) && Follows(style, tail);
    if good {
      DayStart(style, e, year, tail);
      RestFacts(style, e, year, tail);
    }
    r, s := None, "";
    var t := SkipBlanks(s0);
    var (n, u) := Strtoul(t);
    if n == 0 {
      return;
    }
    if u == "" {
      if n >= BASEYEAR * 10000 {
        if good && style == Compact {
          CompactParts(n, e, year);
        }
        r := Some((n % 10000 % 100, n % 10000 / 100, n / 10000));
      }
    } else if u[0] == '/' {
      var day := ParseSlashed(u, e, year);
      if day.Some? {
        r := Some((day.value.0, n, day.value.1));
      }
    } else if u[0] == ' ' || u[0] == '-' {
      if u[0] == ' ' {
        u := SkipExtra(u);
      }
      if IsDigit(At(u, 1)) {
        var day := ParseIso(u, e);
        if day.Some? {
          r := Some((day.value.1, day.value.0, n));
        }
      } else {
        var month, rest := ParseNamed(u, e, year, u[0], tail);
        if month.Some? {
          r, s := Some((n, month.value.0, month.value.1)), rest;
        }
      }
    }
  }

  /** All but the last of several blanks. */
  method SkipExtra(s: string) returns (t: string)
    requires s != "" && s[0] == ' '
    ensures t != "" && t[0] == ' ' && (At(s, 1) != ' ' ==> t == s)
  {
    t := s;
    while At(t, 1) == ' '
      invariant t != "" && t[0] == ' ' && (At(s, 1) != ' ' ==> t == s)
      decreases |t|
    {
      t := t[1..];
    }
  }

  lemma CompactParts(n: nat, e: Stamp, y: string)
    requires DateFine(e) && n == FirstOf(Compact, e, y) && Value(y) >= BASEYEAR
    ensures n >= BASEYEAR * 10000 && n % 10000 % 100 == e.day && n % 10000 / 100 == e.month
    ensures n / 10000 == Value(y)
  {
    hide Value;
  }

  // ---- The time ----

  /** The widths of the fields of a cache element. */
  predicate InFields(e: Stamp) {
    e.hours < 32 && e.minutes < 64 && e.seconds < 64 && e.zhours < 16 && e.zminutes < 64
  }

  predicate TimeFine(e: Stamp) {
    e.hours <= 23 && e.minutes <= 59 && e.seconds <= 60
  }

  /** The zone that is read: none at all if its minutes are out of range. */
  function ZoneRead(e: Stamp): (nat, nat) {
    if e.zminutes < 60 then (e.zhours, e.zminutes) else (0, 0)
  }

  lemma ZoneFacts(e: Stamp)
    requires InFields(e)
    ensures var t := ZoneText(e);
      && |t| == 5 && t[0] == (if e.zoccident then '-' else '+')
      && t[1] == Digit(e.zhours / 10) && t[2] == Digit(e.zhours % 10)
      && t[3] == Digit(e.zminutes / 10) && t[4] == Digit(e.zminutes % 10)
      && (t[3] < '6' <==> e.zminutes < 60)
  {
    TwoIs(e.zhours);
    TwoIs(e.zminutes);
  }

  /** A zone in numbers, after the blank before it. */
  method ParseZone(s: string, ghost e: Stamp) returns (zoccident: bool, zhours: nat, zminutes: nat)
    ensures InFields(e) && s == ZoneText(e) ==> zoccident == e.zoccident && (zhours, zminutes) == ZoneRead(e)
  {
    if InFields(e) && s == ZoneText(e) {
      ZoneFacts(e);
    }
    var t := s;
    zoccident, zhours, zminutes := At(t, 0) == '-', 0, 0;
    if zoccident || At(t, 0) == '+' {
      t := t[1..];
    }
    if IsDigit(At(t, 0)) && IsDigit(At(t, 1)) && IsDigit(At(t, 2)) && At(t, 2) < '6' && IsDigit(At(t, 3)) {
      zhours := (t[0] - '0') as nat * 10 + (t[1] - '0') as nat;
      zminutes := (t[2] - '0') as nat * 10 + (t[3] - '0') as nat;
    }
  }

  /** The code of the name of a zone: a letter, or up to three compressed; 0 if it is
      longer. */
  function NameCode(z: string): int {
    if z == "" then 'Z' as int
    else if |z| == 1 then z[0] as int
    else if |z| == 2 then Code(z[0], z[1], 'A')
    else if |z| == 3 then Code(z[0], z[1], z[2])
    else 0
  }

  /** The names of zones, as mail.c compresses them. */
  lemma ZoneCodes(a: char, b: char, c: char, d: char, more: string)
    ensures NameCode("") == 90 && NameCode([a]) == a as int
    ensures NameCode([a, b]) == (a as int - 65) * 1024 + (b as int - 65) * 32
    ensures NameCode([a, b, c]) == (a as int - 65) * 1024 + (b as int - 65) * 32 + (c as int - 65)
    ensures NameCode([a, b, c, d] + more) == 0
  {
  }

  method ZoneName(s: string) returns (code: int)
    requires s != ""
    ensures code == NameCode(s[1..])
  {
    var t := s[1..];
    if t == "" {
      return 'Z' as int;
    }
    code := t[0] as int;
    t := t[1..];
    if t != "" {
      code := (code - 'A' as int) * 1024 + (t[0] as int - 'A' as int) * 32;
      t := t[1..];
      if t != "" {
        code := code + (t[0] as int - 'A' as int);
        t := t[1..];
      }
      if t != "" {
        code := 0;
      }
    }
  }

  /** The date with the time and the zone that are read. */
  function Timed(date: Stamp, e: Stamp): Stamp {
    date.(hours := e.hours, minutes := e.minutes, seconds := e.seconds,
          zoccident := e.zoccident, zhours := ZoneRead(e).0, zminutes := ZoneRead(e).1)
  }

  /** The time and the zone; a zone without numbers is left as its code, 0 being the
      local one. */
  method ParseTime(s: string, date: Stamp, ghost e: Stamp, ghost z: string)
    returns (ok: bool, r: Stamp, zone: Option<int>)
    requires s != ""
    ensures InFields(e) && s == ClockText(e, z) && z != "" && z[0] != ' ' ==> ok == TimeFine(e)
    ensures InFields(e) && s == ClockText(e, z) && z == ZoneText(e) && ok ==> zone == None && r == Timed(date, e)
    ensures InFields(e) && s == ClockText(e, z) && z != "" && IsAlpha(z[0]) && ok ==>
      zone == Some(NameCode(z)) && r == date.(hours := e.hours, minutes := e.minutes, seconds := e.seconds)
  {
    hide Strtoul, Two, ZoneText, NameCode;
    if InFields(e) && s == ClockText(e, z) {
      ZoneFacts(e);
      TwoRead(e.seconds, " " + z);
      TwoRead(e.minutes, ":" + (Two(e.seconds) + (" " + z)));
      TwoRead(e.hours, ":" + (Two(e.minutes) + (":" + (Two(e.seconds) + (" " + z)))));
      TimeRest(e, z);
    }
    ok, r, zone := false, date, None;
    var (d, t) := Strtoul(s[1..]);
    if At(t, 0) != ':' {
      return;
    }
    var (m, u) := Strtoul(t[1..]);
    var y := 0;
    if At(u, 0) == ':' {
      var (n, v) := Strtoul(u[1..]);
      y, u := n, v;
    }
    if d > 23 || m > 59 || y > 60 {
      return;
    }
    r := date.(hours := d, minutes := m, seconds := y);
    ok := true;
    if At(u, 0) == ' ' {
      u := SkipExtra(u);
      if !IsAlpha(At(u, 1)) {
        var zoccident, zhours, zminutes := ParseZone(u[1..], e);
        r := r.(zoccident := zoccident, zhours := zhours, zminutes := zminutes);
        return;
      }
    }
    var code := 0;
    if At(u, 0) == ' ' || At(u, 0) == '-' {
      code := ZoneName(u);
    }
    zone := Some(code);
  }

  lemma TimeRest(e: Stamp, z: string)
    ensures var c := " " + z;
      var b := ":" + (Two(e.seconds) + c);
      var a := ":" + (Two(e.minutes) + b);
      && ClockText(e, z)[1..] == Two(e.hours) + a && a[1..] == Two(e.minutes) + b
      && b[1..] == Two(e.seconds) + c && c[1..] == z
  {
  }

  // ---- Dates and times ----

  /** A day of the week, a comma and a blank, or nothing. */
  predicate IsWeekday(w: string) {
    w == "" || (|w| == 5 && IsAlpha(w[0]) && IsAlpha(w[1]) && IsAlpha(w[2]) && w[3] == ',' && w[4] == ' ')
  }

  function Stamped(style: Style, e: Stamp, year: string, timed: bool): string {
    DateText(style, e, year) + (if timed then TimeText(e) else "")
  }

  /** What has been written and is to be read. */
  predicate Written(text: string, w: string, style: Style, e: Stamp, year: string, timed: bool) {
    && |text| < MAILTMPLEN && text == w + Stamped(style, e, year, timed)
    && IsWeekday(w) && DateFine(e) && YearFor(style, year) && InFields(e)
    && (timed ==> style == Dashed || style == Spaced)
  }

  /** mail_parse_date, up to zones without numbers, of a date whose year may have any
      number of digits: 0 to 48 are of the next century, 49 to 998 count from 1900, and
      the year has to be one from 1970 to 2097. */
  method ParseDate(text: string, ghost w: string, ghost style: Style, ghost e: Stamp, ghost year: string,
                   ghost timed: bool)
    returns (ok: bool, r: Stamp, zone: Option<int>)
    ensures Written(text, w, style, e, year, timed) ==>
      var v := Value(year);
      ok <==>
        && (v < 49 || 70 <= v <= 197 || 1970 <= v <= 2097) && (v == 0 ==> style != Iso)
        && (timed ==> e.hours <= 23 && e.minutes <= 59 && e.seconds <= 60)
    ensures Written(text, w, style, e, year, timed) && ok ==>
      var v := Value(year);
      && r.year == (if v < 49 then v + 30 else if v <= 197 then v - 70 else v - 1970)
      && r.month == e.month && r.day == e.day
    ensures Written(text, w, style, e, year, timed) && ok && !timed ==>
      && (r.hours, r.minutes, r.seconds, r.zoccident, r.zhours, r.zminutes) == (0, 0, 0, false, 0, 0)
      && zone == Some(0)
    ensures Written(text, w, style, e, year, timed) && ok && timed ==>
      && (r.hours, r.minutes, r.seconds, r.zoccident) == (e.hours, e.minutes, e.seconds, e.zoccident)
      && (r.zhours, r.zminutes) == (if e.zminutes < 60 then (e.zhours, e.zminutes) else (0, 0)) && zone == None
  {
    hide DayText, Two, Decimal, ClockText, ZoneText, DateText, Upper, Value, IsYear;
    ghost var good := Written(text, w, style, e, year, timed);
    ghost var tail := if timed then TimeText(e) else "";
    if good {
      WrittenUpper(text, w, style, e, year, timed);
      ZoneFacts(e);
    }
    ok, r, zone := false, Stamp(0, 0, 0, 0, 0, 0, false, 0, 0), None;
    if text == "" || |text| >= MAILTMPLEN {
      return;
    }
    var s := Upper(text);
    if IsAlpha(At(s, 0)) && IsAlpha(At(s, 1)) && IsAlpha(At(s, 2)) && At(s, 3) == ',' && At(s, 4) == ' ' {
      s := s[5..];
    }
    var date, rest := ParseDay(s, style, e, year, tail);
    if date == None {
      return;
    }
    var (d, m, y) := date.value;
    if d > 31 || m > 12 {
      return;
    }
    if y < 49 {
      y := y + 2000;
    } else if y < 999 {
      y := y + 1900;
    }
    if y < BASEYEAR || y > MAXYEAR {
      return;
    }
    r := r.(day := d, month := m, year := y - BASEYEAR);
    if rest != "" {
      ok, r, zone := ParseTime(rest, r, e, ZoneText(e));
    } else {
      ok, zone := true, Some(0);
    }
  }

  lemma WrittenUpper(text: string, w: string, style: Style, e: Stamp, year: string, timed: bool)
    requires Written(text, w, style, e, year, timed)
    ensures var tail, u := if timed then TimeText(e) else "", Upper(text);
      && text != "" && Follows(style, tail) && (tail == "" <==> !timed)
      && (if w == "" then u == DayText(style, e, year) + tail && !(IsAlpha(At(u, 0)) && IsAlpha(At(u, 1)))
          else
            && IsAlpha(At(u, 0)) && IsAlpha(At(u, 1)) && IsAlpha(At(u, 2)) && At(u, 3) == ',' && At(u, 4) == ' '
            && u[5..] == DayText(style, e, year) + tail)
  {
    hide DayText, DateText, TimeText, Value, IsYear;
    var tail := if timed then TimeText(e) else "";
    DateUpper(style, e, year);
    TimeUpper(e);
    UpperAppend(DateText(style, e, year), tail);
    UpperAppend(w, Stamped(style, e, year, timed));
    DayTextStart(style, e, year);
    assert Upper("") == "";
    if w == "" {
      assert text == Stamped(style, e, year, timed);
    }
  }

  lemma TimeUpper(e: Stamp)
    requires InFields(e)
    ensures Upper(TimeText(e)) == TimeText(e) && TimeText(e) != "" && TimeText(e)[0] == ' '
  {
    TwoIs(e.hours);
    TwoIs(e.minutes);
    TwoIs(e.seconds);
    ZoneFacts(e);
    UpperSame(TimeText(e));
  }

  lemma DayTextStart(style: Style, e: Stamp, year: string)
    requires DateFine(e) && IsYear(year)
    ensures DayText(style, e, year) != "" && !IsAlpha(DayText(style, e, year)[0])
  {
    DecimalValue(e.day);
    DecimalValue(e.month);
  }

  /** mail_parse_date inverts mail_date: it takes the text exactly if the time is one
      of a day, and gives the same fields back exactly if the zone has less than
      60 minutes, a missing day or month being the first. */
  method PrintAndParse(e: Stamp) returns (ok: bool, r: Stamp, zone: Option<int>)
    requires e.day <= 31 && e.month <= 12 && e.year <= 127 && InFields(e)
    ensures ok <==> e.hours <= 23 && e.minutes <= 59 && e.seconds <= 60
    ensures ok ==>
      var first := e.(day := if e.day == 0 then 1 else e.day, month := if e.month == 0 then 1 else e.month);
      zone == None && (r == first <==> e.zminutes < 60)
  {
    ghost var n, year := Normal(e), Decimal(e.year + BASEYEAR);
    YearDecimal(e.year + BASEYEAR);
    NormalWritten(e);
    hide MailDate, IsYear, Decimal, Value, Written;
    ok, r, zone := ParseDate(MailDate(e), "", Dashed, n, year, true);
  }

  lemma NormalWritten(e: Stamp)
    requires e.day <= 31 && e.month <= 12 && e.year <= 127 && InFields(e)
    ensures Written(MailDate(e), "", Dashed, Normal(e), Decimal(e.year + BASEYEAR), true)
  {
    MailDateShort(Normal(e));
    YearDecimal(e.year + BASEYEAR);
    hide DateText, TimeText, IsYear, Decimal, Value;
    assert "" + MailDate(e) == MailDate(e);
  }

  /** The text of a stamp with 61 seconds is not taken. */
  method LateSecond() returns (ok: bool)
    ensures !ok
  {
    var r, zone;
    ok, r, zone := PrintAndParse(Stamp(47, 6, 30, 23, 59, 61, false, 0, 0));
  }

  /** A zone of 60 minutes does not come back. */
  method LongZone() returns (ok: bool, r: Stamp)
    ensures ok && r != Stamp(47, 6, 30, 23, 59, 59, false, 0, 60)
  {
    var zone;
    ok, r, zone := PrintAndParse(Stamp(47, 6, 30, 23, 59, 59, false, 0, 60));
  }

  lemma MailDateShort(e: Stamp)
    requires DateFine(e) && e.year <= 127 && InFields(e)
    ensures |DateText(Dashed, e, Decimal(e.year + BASEYEAR)) + TimeText(e)| < MAILTMPLEN
  {
    TwoIs(e.hours);
    TwoIs(e.minutes);
    TwoIs(e.seconds);
    ZoneFacts(e);
    DecimalShort(e.day);
    DecimalShort(e.year + BASEYEAR);
    MonthRead(e.month);
  }

  lemma DecimalShort(n: nat)
    requires n < 10000
    ensures |Decimal(n)| <= 4
  {
    var a := n / 10;
    var b := a / 10;
    assert b / 10 < 10 && |Decimal(b / 10)| == 1;
    assert |Decimal(b)| <= 2;
    assert |Decimal(a)| <= 3;
  }
}
