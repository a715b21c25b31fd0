/** The clock as text: a second count turned into a Gregorian date and time (sections 5.1 and 5.6 of RFC 3339). */
module Calendar {
  import opened Prelude
  import opened Numbers

  // ------------------------------------------------------------------ the calendar

  predicate Leap(y: nat) {
    y % 4 == 0 && (y % 100 != 0 || y % 400 == 0)
  }

  function YearDays(y: nat): nat {
    if Leap(y) then 366 else 365
  }

  function MonthDays(leap: bool, m: nat): nat
    requires m < 12
  {
    if m == 1 then (if leap then 29 else 28)
    else if m == 3 || m == 5 || m == 8 || m == 10 then 30
    else 31
  }

  /** Leap years before `y`, counted by the rule and not year by year. */
  function LeapsBefore(y: nat): int {
    if y == 0 then 0 else (y - 1) / 4 - (y - 1) / 100 + (y - 1) / 400 + 1
  }

  /** The day number of the first of January, day 0 being the first of January 1970. */
  function YearStart(y: nat): int {
    365 * (y - 1970) + LeapsBefore(y) - 478
  }

  /** The days of a year before month `m`, counted from 0. */
  function MonthStart(leap: bool, m: nat): nat
    requires m <= 12
  {
    if m == 0 then 0 else MonthStart(leap, m - 1) + MonthDays(leap, m - 1)
  }

  datatype Date = Date(year: nat, month: nat, day: nat)

  predicate ValidDate(d: Date) {
    1 <= d.month <= 12 && 1 <= d.day <= MonthDays(Leap(d.year), d.month - 1)
  }

  function DayNumber(d: Date): int
    requires ValidDate(d)
  {
    YearStart(d.year) + MonthStart(Leap(d.year), d.month - 1) + d.day - 1
  }

  datatype Moment = Moment(date: Date, hour: nat, minute: nat, second: nat)

  predicate ValidMoment(t: Moment) {
    ValidDate(t.date) && t.hour < 24 && t.minute < 60 && t.second < 60
  }

  /** Seconds since the epoch. */
  function Seconds(t: Moment): int
    requires ValidMoment(t)
  {
    DayNumber(t.date) * 86400 + t.hour * 3600 + t.minute * 60 + t.second
  }

  // ------------------------------------------------------------------ years and months add up

  lemma Step4(y: int)
    ensures y / 4 == (y - 1) / 4 + if y % 4 == 0 then 1 else 0
  {
  }

  lemma Step100(y: int)
    ensures y / 100 == (y - 1) / 100 + if y % 100 == 0 then 1 else 0
  {
  }

  lemma Step400(y: int)
    ensures y / 400 == (y - 1) / 400 + if y % 400 == 0 then 1 else 0
  {
  }

  lemma Hundreds(y: int, q: int)
    requires y == 100 * q
    ensures y % 100 == 0
  {
  }

  lemma Fours(y: int, q: int)
    requires y == 4 * q
    ensures y % 4 == 0
  {
  }

  lemma Centuries(y: nat)
    ensures (y % 400 == 0 ==> y % 100 == 0) && (y % 100 == 0 ==> y % 4 == 0)
  {
    if y % 400 == 0 {
      var q := y / 400;
      assert y == 400 * q;
      Hundreds(y, 4 * q);
    }
    if y % 100 == 0 {
      var q := y / 100;
      assert y == 100 * q;
      Fours(y, 25 * q);
    }
  }

  /** The three quotients of the rule, one year on. */
  lemma LeapCount(q4: int, q100: int, q400: int, by4: bool, by100: bool, by400: bool)
    requires (by400 ==> by100) && (by100 ==> by4)
    ensures (q4 + if by4 then 1 else 0) - (q100 + if by100 then 1 else 0) + (q400 + if by400 then 1 else 0)
      == q4 - q100 + q400 + if by4 && (!by100 || by400) then 1 else 0
  {
  }

  lemma LeapStep(y: nat)
    ensures LeapsBefore(y + 1) == LeapsBefore(y) + if Leap(y) then 1 else 0
  {
    if y > 0 {
      Step4(y);
      Step100(y);
      Step400(y);
      Centuries(y);
      LeapCount((y - 1) / 4, (y - 1) / 100, (y - 1) / 400, y % 4 == 0, y % 100 == 0, y % 400 == 0);
    }
  }

  lemma YearStep(y: nat)
    ensures YearStart(y + 1) == YearStart(y) + YearDays(y)
  {
    LeapStep(y);
  }

  lemma EpochYear()
    ensures YearStart(1970) == 0
  {
  }

  /** The table of months, in one formula: day counts as the Gregorian calendar has them. */
  lemma {:induction false} MonthsCounted(leap: bool, m: nat)
    requires m < 12
    ensures MonthStart(leap, m) == (367 * m + 5) / 12 - (if m < 2 then 0 else if leap then 1 else 2)
  {
    if m > 0 {
      MonthsCounted(leap, m - 1);
      assert m in {1, 2, 3, 4, 5, 6, 7, 8, 9, 10, 11};
    }
  }

  lemma YearAddsUp(leap: bool)
    ensures MonthStart(leap, 12) == if leap then 366 else 365
  {
    assert MonthStart(leap, 0) == 0;
    assert MonthStart(leap, 1) == 31;
    assert MonthStart(leap, 2) == if leap then 60 else 59;
    assert MonthStart(leap, 3) == if leap then 91 else 90;
    assert MonthStart(leap, 4) == if leap then 121 else 120;
    assert MonthStart(leap, 5) == if leap then 152 else 151;
    assert MonthStart(leap, 6) == if leap then 182 else 181;
    assert MonthStart(leap, 7) == if leap then 213 else 212;
    assert MonthStart(leap, 8) == if leap then 244 else 243;
    assert MonthStart(leap, 9) == if leap then 274 else 273;
    assert MonthStart(leap, 10) == if leap then 305 else 304;
    assert MonthStart(leap, 11) == if leap then 335 else 334;
  }

  lemma NoMonths(leap: bool)
    ensures MonthStart(leap, 0) == 0
  {
  }

  lemma MonthStep(leap: bool, m: nat)
    requires m < 12
    ensures MonthStart(leap, m + 1) == MonthStart(leap, m) + MonthDays(leap, m)
  {
  }

  lemma {:induction false} MonthsGrow(leap: bool, a: nat, b: nat)
    requires a < b <= 12
    ensures MonthStart(leap, a) + MonthDays(leap, a) <= MonthStart(leap, b)
    decreases b
  {
    if a < b - 1 {
      MonthsGrow(leap, a, b - 1);
    }
  }

  lemma {:induction false} YearsGrow(a: nat, b: nat)
    requires a < b
    ensures YearStart(a) + YearDays(a) <= YearStart(b)
    decreases b
  {
    YearStep(b - 1);
    if a < b - 1 {
      YearsGrow(a, b - 1);
    }
  }

  // ------------------------------------------------------------------ the loops

  /** Year after year, then month after month: the date whose day number it is. */
  method DateOf(days: nat) returns (d: Date)
    ensures ValidDate(d) && DayNumber(d) == days && d.year >= 1970
  {
    hide YearStart, MonthStart;
    var y: nat, remaining: nat := 1970, days;
    EpochYear();
    while true
      invariant y >= 1970 && remaining + YearStart(y) == days
      decreases remaining
    {
      var yearDays := if y % 4 == 0 && (y % 100 != 0 || y % 400 == 0) then 366 else 365;
      if remaining < yearDays {
        break;
      }
      YearStep(y);
      remaining := remaining - yearDays;
      y := y + 1;
    }
    var leap := y % 4 == 0 && (y % 100 != 0 || y % 400 == 0);
    YearAddsUp(leap);
    NoMonths(leap);
    ghost var inYear := remaining;
    var monthDays := [31, if leap then 29 else 28, 31, 30, 31, 30, 31, 31, 30, 31, 30, 31];
    assert forall i :: 0 <= i < 12 ==> monthDays[i] == MonthDays(leap, i);
    var m: nat := 0;
    while m < |monthDays| && remaining >= monthDays[m]
      invariant 0 <= m <= 12
      invariant remaining + MonthStart(leap, m) == inYear
    {
      MonthStep(leap, m);
      remaining := remaining - monthDays[m];
      m := m + 1;
    }
    assert m < 12;
    d := Date(y, m + 1, remaining + 1);
  }

  /** A second count taken apart. */
  method MomentOf(secs: nat) returns (t: Moment)
    ensures ValidMoment(t) && Seconds(t) == secs && t.date.year >= 1970
  {
    var days := secs / 86400;
    var timeSecs := secs % 86400;
    var date := DateOf(days);
    t := Moment(date, timeSecs / 3600, (timeSecs % 3600) / 60, timeSecs % 60);
    TimeAddsUp(timeSecs);
  }

  lemma TimeAddsUp(s: nat)
    requires s < 86400
    ensures s / 3600 < 24 && (s % 3600) / 60 < 60 && s % 60 < 60
    ensures s / 3600 * 3600 + (s % 3600) / 60 * 60 + s % 60 == s
  {
    var h, r := s / 3600, s % 3600;
    assert s == h * 3600 + r;
    assert r == r / 60 * 60 + r % 60;
    assert s % 60 == r % 60;
  }

  // ------------------------------------------------------------------ one moment, one second count

  predicate DateBefore(a: Date, b: Date) {
    a.year < b.year || (a.year == b.year && (a.month < b.month || (a.month == b.month && a.day < b.day)))
  }

  /** The last day of a year comes before the first of the next. */
  lemma DayInYear(d: Date)
    requires ValidDate(d)
    ensures YearStart(d.year) <= DayNumber(d) < YearStart(d.year) + YearDays(d.year)
  {
    hide Leap, MonthDays, MonthStart, YearStart;
    YearAddsUp(Leap(d.year));
    if d.month < 12 {
      MonthsGrow(Leap(d.year), d.month - 1, 12);
    } else {
      LastMonth(Leap(d.year));
    }
  }

  lemma LastMonth(leap: bool)
    ensures MonthStart(leap, 12) == MonthStart(leap, 11) + MonthDays(leap, 11)
  {
    hide MonthDays;
  }

  lemma DateOrder(a: Date, b: Date)
    requires ValidDate(a) && ValidDate(b) && DateBefore(a, b)
    ensures DayNumber(a) < DayNumber(b)
  {
    hide Leap, MonthDays, MonthStart, YearStart;
    if a.year < b.year {
      hide DayNumber;
      YearsGrow(a.year, b.year);
      DayInYear(a);
      DayInYear(b);
    } else if a.month < b.month {
      MonthsGrow(Leap(a.year), a.month - 1, b.month - 1);
    }
  }

  predicate Before(a: Moment, b: Moment) {
    || DateBefore(a.date, b.date)
    || (a.date == b.date && (a.hour < b.hour || (a.hour == b.hour
      && (a.minute < b.minute || (a.minute == b.minute && a.second < b.second)))))
  }

  lemma MomentOrder(a: Moment, b: Moment)
    requires ValidMoment(a) && ValidMoment(b) && Before(a, b)
    ensures Seconds(a) < Seconds(b)
  {
    if DateBefore(a.date, b.date) {
      DateOrder(a.date, b.date);
    }
  }

  /** Earlier, the same, or later: nothing else. */
  lemma Trichotomy(a: Moment, b: Moment)
    ensures a == b || Before(a, b) || Before(b, a)
  {
  }

  /** A second count belongs to one moment only, and moments are ordered as their second counts are. */
  lemma SecondsDecide(a: Moment, b: Moment)
    requires ValidMoment(a) && ValidMoment(b)
    ensures Seconds(a) < Seconds(b) <==> Before(a, b)
    ensures Seconds(a) == Seconds(b) <==> a == b
  {
    Trichotomy(a, b);
    if Before(a, b) {
      MomentOrder(a, b);
    } else if Before(b, a) {
      MomentOrder(b, a);
    }
  }

  // ------------------------------------------------------------------ the text

  function Two(n: nat): string
    requires n < 100
  {
    [Digit(n / 10), Digit(n % 10)]
  }

  /** At least four digits. */
  function Year(n: nat): string {
    if n < 10000 then [Digit(n / 1000), Digit(n / 100 % 10), Digit(n / 10 % 10), Digit(n % 10)] else Number(n)
  }

  function Text(t: Moment): string
    requires ValidMoment(t)
  {
    Year(t.date.year) + "-" + Two(t.date.month) + "-" + Two(t.date.day) + "T" + Two(t.hour) + ":" + Two(t.minute) + ":"
      + Two(t.second) + "Z"
  }

  /** The text is that of a second count's moment. */
  ghost predicate TextOf(s: string, t: Moment, secs: int) {
    ValidMoment(t) && Seconds(t) == secs && s == Text(t)
  }

  /** The current time as text. */
  method NowText(secs: nat) returns (s: string)
    ensures exists t :: TextOf(s, t, secs)
  {
    var t := MomentOf(secs);
    s := Text(t);
    assert TextOf(s, t, secs);
  }

  // ------------------------------------------------------------------ reading the text

  lemma TwoReads(n: nat)
    requires n < 100
    ensures |Two(n)| == 2 && ReadNumber(Two(n)) == Some(n)
  {
    hide Digit, ReadNumber;
    ReadOne(n / 10);
    ReadMore([Digit(n / 10)], n % 10);
    assert Two(n) == [Digit(n / 10)] + [Digit(n % 10)];
  }

  lemma YearReads(n: nat)
    ensures |Year(n)| >= 4 && ReadNumber(Year(n)) == Some(n)
  {
    hide Digit, ReadNumber;
    if n < 10000 {
      FourDigits(n);
      var a := [Digit(n / 1000)];
      var b := a + [Digit(n / 100 % 10)];
      var c := b + [Digit(n / 10 % 10)];
      ReadOne(n / 1000);
      ReadMore(a, n / 100 % 10);
      ReadMore(b, n / 10 % 10);
      ReadMore(c, n % 10);
      assert Year(n) == c + [Digit(n % 10)];
    } else {
      NumberReads(n);
      LongNumber(n);
    }
  }

  lemma {:induction false} LongNumber(n: nat)
    ensures |Number(n)| >= (if n < 10 then 1 else if n < 100 then 2 else if n < 1000 then 3 else 4)
  {
    hide Digit;
    if n >= 10 {
      LongNumber(n / 10);
    }
  }

  /** The text is date and time as RFC 3339 writes them (section 5.6): read back, its digits are the moment's fields. */
  lemma TextReads(t: Moment)
    requires ValidMoment(t)
    ensures var s := Text(t); var n := |s| - 16;
      && n >= 4 && s[n] == '-' && s[n + 3] == '-' && s[n + 6] == 'T' && s[n + 9] == ':' && s[n + 12] == ':'
      && s[n + 15] == 'Z'
      && ReadNumber(s[..n]) == Some(t.date.year)
      && ReadNumber(s[n + 1..n + 3]) == Some(t.date.month) && ReadNumber(s[n + 4..n + 6]) == Some(t.date.day)
      && ReadNumber(s[n + 7..n + 9]) == Some(t.hour) && ReadNumber(s[n + 10..n + 12]) == Some(t.minute)
      && ReadNumber(s[n + 13..n + 15]) == Some(t.second)
  {
    hide Year, Two, ReadNumber;
    YearReads(t.date.year);
    TwoReads(t.date.month);
    TwoReads(t.date.day);
    TwoReads(t.hour);
    TwoReads(t.minute);
    TwoReads(t.second);
    var s, y := Text(t), Year(t.date.year);
    var n := |y|;
    assert |s| == n + 16 && s[..n] == y;
    assert s[n + 1..n + 3] == Two(t.date.month) && s[n + 4..n + 6] == Two(t.date.day);
    assert s[n + 7..n + 9] == Two(t.hour) && s[n + 10..n + 12] == Two(t.minute);
    assert s[n + 13..n + 15] == Two(t.second);
  }

  // ------------------------------------------------------------------ text order is time order

  /** The order strings are compared in. */
  predicate TextBefore(a: string, b: string) {
    if a == "" then b != ""
    else b != "" && (a[0] < b[0] || (a[0] == b[0] && TextBefore(a[1..], b[1..])))
  }

  lemma {:induction false} BeforeAppend(a: string, b: string, x: string, y: string)
    requires |a| == |b|
    ensures TextBefore(a + x, b + y) <==> TextBefore(a, b) || (a == b && TextBefore(x, y))
    decreases |a|
  {
    if a == "" {
      assert a + x == x && b + y == y;
    } else {
      assert (a + x)[1..] == a[1..] + x && (b + y)[1..] == b[1..] + y && (a + x)[0] == a[0] && (b + y)[0] == b[0];
      BeforeAppend(a[1..], b[1..], x, y);
      if a[0] == b[0] && a[1..] == b[1..] {
        assert a == [a[0]] + a[1..] && b == [b[0]] + b[1..];
      }
    }
  }

  lemma {:induction false} NotBeforeItself(a: string)
    ensures !TextBefore(a, a)
  {
    if a != "" {
      NotBeforeItself(a[1..]);
    }
  }

  /** Texts of the same length after texts of the same length, with the same separator between. */
  lemma FieldBefore(a: string, b: string, sep: string, x: string, y: string)
    requires |a| == |b|
    ensures TextBefore(a + (sep + x), b + (sep + y)) <==> TextBefore(a, b) || (a == b && TextBefore(x, y))
  {
    BeforeAppend(a, b, sep + x, sep + y);
    BeforeAppend(sep, sep, x, y);
    NotBeforeItself(sep);
  }

  lemma OneBefore(a: char, b: char)
    ensures TextBefore([a], [b]) <==> a < b
  {
    assert [a][1..] == "" && [b][1..] == "";
  }

  lemma TwoBefore(a: nat, b: nat)
    requires a < 100 && b < 100
    ensures TextBefore(Two(a), Two(b)) <==> a < b
    ensures Two(a) == Two(b) <==> a == b
  {
    assert Two(a) == [Digit(a / 10)] + [Digit(a % 10)] && Two(b) == [Digit(b / 10)] + [Digit(b % 10)];
    BeforeAppend([Digit(a / 10)], [Digit(b / 10)], [Digit(a % 10)], [Digit(b % 10)]);
    OneBefore(Digit(a / 10), Digit(b / 10));
    OneBefore(Digit(a % 10), Digit(b % 10));
    if Two(a) == Two(b) {
      assert Two(a)[0] == Two(b)[0] && Two(a)[1] == Two(b)[1];
    }
  }

  lemma Thousands(n: int, q: int, s: int)
    requires n == 1000 * q + s && 0 <= s < 1000
    ensures n / 1000 == q
  {
  }

  lemma Tens(n: int, q: int, s: int)
    requires n == 10 * q + s && 0 <= s < 10
    ensures n / 10 == q && n % 10 == s
  {
  }

  /** Four digits taken one by one or two by two. */
  lemma FourDigits(n: nat)
    ensures n / 1000 == n / 100 / 10 && n / 10 % 10 == n % 100 / 10 && n % 10 == n % 100 % 10
  {
    var h, s := n / 100, n % 100;
    assert n == 100 * h + s;
    var p, t := h / 10, h % 10;
    assert h == 10 * p + t;
    Thousands(n, p, 100 * t + s);
    var c, d := s / 10, s % 10;
    assert s == 10 * c + d;
    Tens(n, 10 * h + c, d);
    Tens(10 * h + c, h, c);
  }

  lemma YearIsTwos(n: nat)
    requires n < 10000
    ensures Year(n) == Two(n / 100) + Two(n % 100)
  {
    FourDigits(n);
  }

  lemma YearBefore(a: nat, b: nat)
    requires a < 10000 && b < 10000
    ensures TextBefore(Year(a), Year(b)) <==> a < b
    ensures Year(a) == Year(b) <==> a == b
  {
    hide Year, Two;
    YearIsTwos(a);
    YearIsTwos(b);
    TwoLength(a / 100);
    TwoLength(b / 100);
    BeforeAppend(Two(a / 100), Two(b / 100), Two(a % 100), Two(b % 100));
    TwoBefore(a / 100, b / 100);
    TwoBefore(a % 100, b % 100);
    if Year(a) == Year(b) {
      assert Year(a)[..2] == Two(a / 100) && Year(b)[..2] == Two(b / 100) && Year(a)[2..] == Two(a % 100)
        && Year(b)[2..] == Two(b % 100);
    }
  }

  lemma TwoLength(n: nat)
    requires n < 100
    ensures |Two(n)| == 2
  {
  }

  lemma YearLength(n: nat)
    requires n < 10000
    ensures |Year(n)| == 4
  {
  }

  function ClockText(t: Moment): string
    requires ValidMoment(t)
  {
    Two(t.hour) + (":" + (Two(t.minute) + (":" + (Two(t.second) + ("Z" + "")))))
  }

  function DayText(t: Moment): string
    requires ValidMoment(t)
  {
    Two(t.date.month) + ("-" + (Two(t.date.day) + ("T" + ClockText(t))))
  }

  lemma TextParts(t: Moment)
    requires ValidMoment(t)
    ensures Text(t) == Year(t.date.year) + ("-" + DayText(t))
  {
    hide Year, Two;
  }

  lemma ClockBefore(a: Moment, b: Moment)
    requires ValidMoment(a) && ValidMoment(b)
    ensures TextBefore(ClockText(a), ClockText(b)) <==>
      a.hour < b.hour || (a.hour == b.hour && (a.minute < b.minute || (a.minute == b.minute && a.second < b.second)))
  {
    hide Two, TextBefore;
    TwoLength(a.hour);
    TwoLength(b.hour);
    TwoLength(a.minute);
    TwoLength(b.minute);
    TwoLength(a.second);
    TwoLength(b.second);
    TwoBefore(a.hour, b.hour);
    TwoBefore(a.minute, b.minute);
    TwoBefore(a.second, b.second);
    NotBeforeItself("");
    FieldBefore(Two(a.second), Two(b.second), "Z", "", "");
    var x, y := Two(a.second) + ("Z" + ""), Two(b.second) + ("Z" + "");
    FieldBefore(Two(a.minute), Two(b.minute), ":", x, y);
    FieldBefore(Two(a.hour), Two(b.hour), ":", Two(a.minute) + (":" + x), Two(b.minute) + (":" + y));
  }

  /** Up to the year 9999 texts are ordered as the moments are. */
  lemma TextOrder(a: Moment, b: Moment)
    requires ValidMoment(a) && ValidMoment(b) && a.date.year < 10000 && b.date.year < 10000
    ensures TextBefore(Text(a), Text(b)) <==> Before(a, b)
  {
    hide Two, Year, TextBefore, ClockText, Text, MonthDays;
    TextParts(a);
    TextParts(b);
    YearLength(a.date.year);
    YearLength(b.date.year);
    YearBefore(a.date.year, b.date.year);
    MonthAndDay(a);
    MonthAndDay(b);
    TwoLength(a.date.month);
    TwoLength(b.date.month);
    TwoLength(a.date.day);
    TwoLength(b.date.day);
    TwoBefore(a.date.month, b.date.month);
    TwoBefore(a.date.day, b.date.day);
    ClockBefore(a, b);
    var x, y := Two(a.date.day) + ("T" + ClockText(a)), Two(b.date.day) + ("T" + ClockText(b));
    FieldBefore(Two(a.date.day), Two(b.date.day), "T", ClockText(a), ClockText(b));
    FieldBefore(Two(a.date.month), Two(b.date.month), "-", x, y);
    FieldBefore(Year(a.date.year), Year(b.date.year), "-", DayText(a), DayText(b));
  }

  lemma MonthAndDay(t: Moment)
    requires ValidMoment(t)
    ensures t.date.month < 100 && t.date.day < 100
  {
  }

  /** String order is time order: one text stands before another exactly when its second count is smaller. */
  lemma TextIsTime(a: Moment, b: Moment)
    requires ValidMoment(a) && ValidMoment(b) && a.date.year < 10000 && b.date.year < 10000
    ensures TextBefore(Text(a), Text(b)) <==> Seconds(a) < Seconds(b)
  {
    hide Text, TextBefore, Seconds;
    TextOrder(a, b);
    SecondsDecide(a, b);
  }

  /** The first second of the year 10000 sorts before the last of the year 9999. */
  lemma FiveDigitsBreakTheOrder()
    ensures var a, b := Moment(Date(9999, 12, 31), 23, 59, 59), Moment(Date(10000, 1, 1), 0, 0, 0);
      ValidMoment(a) && ValidMoment(b) && Seconds(a) < Seconds(b) && !TextBefore(Text(a), Text(b))
  {
    var a, b := Moment(Date(9999, 12, 31), 23, 59, 59), Moment(Date(10000, 1, 1), 0, 0, 0);
    YearStep(9999);
    DateOrder(a.date, b.date);
    TextParts(a);
    TextParts(b);
    assert Number(10000)[0] == '1' by {
      assert Number(1) == "1";
      assert Number(10)[0] == '1';
      assert Number(100)[0] == '1';
      assert Number(1000)[0] == '1';
    }
    assert Text(a)[0] == '9' && Text(b)[0] == '1';
  }

  /** The texts of these two moments sort as the moments do. */
  predicate SortsRight(a: Moment, b: Moment)
    requires ValidMoment(a) && ValidMoment(b)
  {
    TextBefore(Text(a), Text(b)) <==> Seconds(a) < Seconds(b)
  }

  /** So do those of any two moments up to the end of that year. */
  ghost predicate SortsUpTo(year: nat) {
    forall a, b :: ValidMoment(a) && ValidMoment(b) && a.date.year <= year && b.date.year <= year ==> SortsRight(a, b)
  }

  /** Sorting texts sorts moments up to the year 9999, and up to no later one. */
  lemma SortsUntil(year: nat)
    ensures SortsUpTo(year) <==> year <= 9999
  {
    hide SortsRight, ValidMoment;
    if year <= 9999 {
      forall a, b | ValidMoment(a) && ValidMoment(b) && a.date.year <= year && b.date.year <= year
        ensures SortsRight(a, b)
      {
        FourDigitsSort(a, b);
      }
    } else {
      var a, b := Moment(Date(9999, 12, 31), 23, 59, 59), Moment(Date(10000, 1, 1), 0, 0, 0);
      FiveDigitsDoNot();
      assert a.date.year <= year && b.date.year <= year;
    }
  }

  lemma FourDigitsSort(a: Moment, b: Moment)
    requires ValidMoment(a) && ValidMoment(b) && a.date.year < 10000 && b.date.year < 10000
    ensures SortsRight(a, b)
  {
    hide Text, TextBefore, Seconds, ValidMoment;
    TextIsTime(a, b);
  }

  lemma FiveDigitsDoNot()
    ensures var a, b := Moment(Date(9999, 12, 31), 23, 59, 59), Moment(Date(10000, 1, 1), 0, 0, 0);
      ValidMoment(a) && ValidMoment(b) && !SortsRight(a, b)
  {
    hide Text, TextBefore, Seconds;
    FiveDigitsBreakTheOrder();
  }
}
