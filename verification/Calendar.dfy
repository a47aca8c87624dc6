/** The portable civil calendar of the date module. */
module Calendar {
  /** Division as the program's integers divide: toward zero. */
  function Div(a: int, b: int): int
    requires b > 0
  {
    if a >= 0 then a / b else -(-a / b)
  }

  datatype Date = Date(year: int, month: int, day: int)

  // The calendar, independently of how the program computes with it.

  predicate Leap(y: int) {
    y % 4 == 0 && (y % 100 != 0 || y % 400 == 0)
  }

  function MonthDays(y: int, m: int): int {
    if m == 2 then (if Leap(y) then 29 else 28)
    else if m == 4 || m == 6 || m == 9 || m == 11 then 30
    else 31
  }

  predicate Valid(c: Date) {
    1 <= c.month <= 12 && 1 <= c.day <= MonthDays(c.year, c.month)
  }

  function NextDate(c: Date): Date {
    if c.day < MonthDays(c.year, c.month) then c.(day := c.day + 1)
    else if c.month < 12 then Date(c.year, c.month + 1, 1)
    else Date(c.year + 1, 1, 1)
  }

  // The program.

  function DaysFromCivil(y0: int, m: int, d: int): int {
    var y := if m <= 2 then y0 - 1 else y0;
    var era := Div(if y >= 0 then y else y - 399, 400);
    var yoe := y - era * 400;
    var mp := if m > 2 then m - 3 else m + 9;
    var doy := Div(153 * mp + 2, 5) + d - 1;
    var doe := yoe * 365 + Div(yoe, 4) - Div(yoe, 100) + doy;
    era * 146097 + doe - 719468
  }

  function CivilFromDays(z0: int): Date {
    var z := z0 + 719468;
    var era := Div(if z >= 0 then z else z - 146096, 146097);
    var doe := z - era * 146097;
    var yoe := Div(doe - Div(doe, 1460) + Div(doe, 36524) - Div(doe, 146096), 365);
    var y := yoe + era * 400;
    var doy := doe - (365 * yoe + Div(yoe, 4) - Div(yoe, 100));
    var mp := Div(5 * doy + 2, 153);
    var d := doy - Div(153 * mp + 2, 5) + 1;
    var m := if mp < 10 then mp + 3 else mp - 9;
    Date(if m <= 2 then y + 1 else y, m, d)
  }

  function WeekdayFromDays(z: int): int {
    (z % 7 + 4) % 7
  }

  // Years of an era, counted from March.

  /** The first day of year `yoe` of an era. */
  function YearStart(yoe: int): int {
    365 * yoe + yoe / 4 - yoe / 100
  }

  /** How long that year is: its last day is the 29th of February of the next year, if it has
      one. */
  function YearDays(yoe: int): int {
    if Leap(yoe + 1) then 366 else 365
  }

  function YearOf(doe: int): int {
    (doe - doe / 1460 + doe / 36524 - doe / 146096) / 365
  }

  /** A year of an era by century, leap cycle and year. */
  lemma {:induction false} YearParts(k: int, q: int, r: int)
    requires 0 <= k < 4 && 0 <= q < 25 && 0 <= r < 4
    ensures
      var yoe := 100 * k + 4 * q + r;
      && 0 <= yoe < 400 && YearStart(yoe) == 36524 * k + 1461 * q + 365 * r
      && (Leap(yoe + 1) <==> r == 3 && (q < 24 || k == 3))
  {
    var yoe := 100 * k + 4 * q + r;
    assert yoe / 4 == 25 * k + q;
    assert yoe / 100 == k;
    assert (yoe + 1) % 4 == (r + 1) % 4;
    assert (yoe + 1) % 100 == (4 * q + r + 1) % 100;
    assert (yoe + 1) % 400 == (100 * k + 4 * q + r + 1) % 400;
  }

  /** The program's way to the year from the day is right on every day of the era. */
  lemma {:induction false} YearOfDay(k: int, q: int, r: int, doy: int)
    requires 0 <= k < 4 && 0 <= q < 25 && 0 <= r < 4 && 0 <= doy < YearDays(100 * k + 4 * q + r)
    ensures var yoe := 100 * k + 4 * q + r; 0 <= YearStart(yoe) + doy < 146097 && YearOf(YearStart(yoe) + doy) == yoe
  {
    YearParts(k, q, r);
    var yoe := 100 * k + 4 * q + r;
    var doe := 36524 * k + 1461 * q + 365 * r + doy;
    var e := (24 * k + q + 365 * r + doy) / 1460;
    assert doe / 1460 == 25 * k + q + e;
    var last := k == 3 && q == 24 && r == 3 && doy == 365;
    assert doe / 36524 == if last then 4 else k;
    assert doe / 146096 == if last then 1 else 0;
    assert 0 <= doy - e < 365;
    assert doe - doe / 1460 + doe / 36524 - doe / 146096 == 365 * yoe + (doy - e);
  }

  /** Every day of an era is a day of one of its years. */
  lemma {:induction false} DayParts(doe: int) returns (k: int, q: int, r: int, doy: int)
    requires 0 <= doe < 146097
    ensures 0 <= k < 4 && 0 <= q < 25 && 0 <= r < 4 && 0 <= doy < YearDays(100 * k + 4 * q + r)
    ensures doe == YearStart(100 * k + 4 * q + r) + doy
  {
    k := if doe / 36524 < 3 then doe / 36524 else 3;
    var dc := doe - 36524 * k;
    q := if dc / 1461 < 24 then dc / 1461 else 24;
    var rest := dc - 1461 * q;
    r := if rest / 365 < 3 then rest / 365 else 3;
    doy := rest - 365 * r;
    YearParts(k, q, r);
  }

  // Months of a year counted from March.

  function MonthStart(mp: int): int {
    (153 * mp + 2) / 5
  }

  function CivilMonth(mp: int): int {
    if mp < 10 then mp + 3 else mp - 9
  }

  /** The civil year a month of March-year `y` is in. */
  function CivilYear(y: int, mp: int): int {
    if mp < 10 then y else y + 1
  }

  lemma {:induction false} MonthOfDay(y: int, mp: int, d: int)
    requires 0 <= mp < 12 && 1 <= d <= MonthDays(CivilYear(y, mp), CivilMonth(mp))
    ensures
      var doy := MonthStart(mp) + d - 1;
      0 <= doy < (if Leap(y + 1) then 366 else 365) && (5 * doy + 2) / 153 == mp
  {
    if mp == 0 {} else if mp == 1 {} else if mp == 2 {} else if mp == 3 {} else if mp == 4 {} else if mp == 5 {}
    else if mp == 6 {} else if mp == 7 {} else if mp == 8 {} else if mp == 9 {} else if mp == 10 {} else {}
  }

  lemma {:induction false} DayOfMonth(y: int, doy: int)
    requires 0 <= doy < (if Leap(y + 1) then 366 else 365)
    ensures
      var mp := (5 * doy + 2) / 153;
      0 <= mp < 12 && 1 <= doy - MonthStart(mp) + 1 <= MonthDays(CivilYear(y, mp), CivilMonth(mp))
  {
    var mp := (5 * doy + 2) / 153;
    assert 153 * mp <= 5 * doy + 2 < 153 * (mp + 1);
    if mp == 0 {} else if mp == 1 {} else if mp == 2 {} else if mp == 3 {} else if mp == 4 {} else if mp == 5 {}
    else if mp == 6 {} else if mp == 7 {} else if mp == 8 {} else if mp == 9 {} else if mp == 10 {} else {}
  }

  // Eras.

  lemma {:induction false} EraOfYear(era: int, yoe: int)
    requires 0 <= yoe < 400
    ensures var y := era * 400 + yoe; Div(if y >= 0 then y else y - 399, 400) == era && (Leap(y + 1) <==> Leap(yoe + 1))
  {
    var y := era * 400 + yoe;
    assert (y + 1) % 4 == (yoe + 1) % 4 by { assert y + 1 == 4 * (100 * era) + (yoe + 1); ModShift(4, 100 * era, yoe + 1); }
    assert (y + 1) % 100 == (yoe + 1) % 100 by { ModShift(100, 4 * era, yoe + 1); }
    assert (y + 1) % 400 == (yoe + 1) % 400 by { ModShift(400, era, yoe + 1); }
  }

  lemma {:induction false} ModShift(n: int, k: int, x: int)
    requires n == 4 || n == 100 || n == 400
    ensures (n * k + x) % n == x % n
  {
  }

  lemma {:induction false} EraOfDay(era: int, doe: int)
    requires 0 <= doe < 146097
    ensures var z := era * 146097 + doe; Div(if z >= 0 then z else z - 146096, 146097) == era
  {
  }

  /** Both functions, in terms of the parts of a date. */
  lemma {:induction false} Anatomy(era: int, k: int, q: int, r: int, mp: int, d: int)
    requires 0 <= k < 4 && 0 <= q < 25 && 0 <= r < 4 && 0 <= mp < 12
    requires
      var y := era * 400 + (100 * k + 4 * q + r);
      1 <= d <= MonthDays(CivilYear(y, mp), CivilMonth(mp))
    ensures
      var yoe := 100 * k + 4 * q + r;
      var y := era * 400 + yoe;
      var z := era * 146097 + YearStart(yoe) + MonthStart(mp) + d - 1 - 719468;
      && DaysFromCivil(CivilYear(y, mp), CivilMonth(mp), d) == z
      && CivilFromDays(z) == Date(CivilYear(y, mp), CivilMonth(mp), d)
  {
    hide *;
    var yoe := 100 * k + 4 * q + r;
    var y := era * 400 + yoe;
    YearParts(k, q, r);
    EraOfYear(era, yoe);
    MonthOfDay(y, mp, d);
    var doy := MonthStart(mp) + d - 1;
    YearLength(yoe);
    YearOfDay(k, q, r, doy);
    EraOfDay(era, YearStart(yoe) + doy);
    DaysSteps(era, yoe, mp, d);
    CivilSteps(era, YearStart(yoe) + doy, yoe, doy, mp);
  }

  lemma {:induction false} YearLength(yoe: int)
    ensures YearDays(yoe) == if Leap(yoe + 1) then 366 else 365
  {
  }

  lemma {:induction false} DaysSteps(era: int, yoe: int, mp: int, d: int)
    requires 0 <= yoe < 400 && 0 <= mp < 12
    requires var y := era * 400 + yoe; Div(if y >= 0 then y else y - 399, 400) == era
    ensures DaysFromCivil(CivilYear(era * 400 + yoe, mp), CivilMonth(mp), d) == era * 146097 + YearStart(yoe) + MonthStart(mp) + d - 1 - 719468
  {
    assert Div(yoe, 4) == yoe / 4 && Div(yoe, 100) == yoe / 100 && Div(153 * mp + 2, 5) == (153 * mp + 2) / 5;
    hide Div;
  }

  lemma {:induction false} CivilSteps(era: int, doe: int, yoe: int, doy: int, mp: int)
    requires 0 <= doe < 146097 && 0 <= yoe < 400 && YearOf(doe) == yoe && doe == YearStart(yoe) + doy && 0 <= doy < 366
    requires mp == (5 * doy + 2) / 153 && 0 <= mp < 12
    requires var z := era * 146097 + doe; Div(if z >= 0 then z else z - 146096, 146097) == era
    ensures CivilFromDays(era * 146097 + doe - 719468) == Date(CivilYear(era * 400 + yoe, mp), CivilMonth(mp), doy - MonthStart(mp) + 1)
  {
    assert Div(doe, 1460) == doe / 1460 && Div(doe, 36524) == doe / 36524 && Div(doe, 146096) == doe / 146096;
    var n := doe - doe / 1460 + doe / 36524 - doe / 146096;
    assert Div(n, 365) == n / 365;
    assert Div(yoe, 4) == yoe / 4 && Div(yoe, 100) == yoe / 100 && Div(5 * doy + 2, 153) == mp && Div(153 * mp + 2, 5) == (153 * mp + 2) / 5;
    hide Div;
  }

  lemma {:induction false} PartsOfYear(y: int) returns (era: int, k: int, q: int, r: int)
    ensures 0 <= k < 4 && 0 <= q < 25 && 0 <= r < 4 && y == era * 400 + (100 * k + 4 * q + r)
  {
    era := y / 400;
    var yoe := y % 400;
    k := yoe / 100;
    q := yoe % 100 / 4;
    r := yoe % 4;
  }

  /** Every valid date comes back from its day number. */
  lemma {:induction false} DateRoundTrip(c: Date)
    requires Valid(c)
    ensures CivilFromDays(DaysFromCivil(c.year, c.month, c.day)) == c
  {
    hide *;
    var y, mp := MarchParts(c);
    var era, k, q, r := PartsOfYear(y);
    Anatomy(era, k, q, r, mp, c.day);
  }

  lemma {:induction false} ValidParts(y: int, mp: int, d: int)
    requires 0 <= mp < 12 && 1 <= d <= MonthDays(CivilYear(y, mp), CivilMonth(mp))
    ensures Valid(Date(CivilYear(y, mp), CivilMonth(mp), d))
  {
  }

  /** Every integer is the day number of a valid date. */
  lemma {:induction false} DayRoundTrip(z: int)
    ensures var c := CivilFromDays(z); Valid(c) && DaysFromCivil(c.year, c.month, c.day) == z
  {
    hide *;
    var era := (z + 719468) / 146097;
    var doe := (z + 719468) % 146097;
    var k, q, r, doy := DayParts(doe);
    var yoe := 100 * k + 4 * q + r;
    var y := era * 400 + yoe;
    YearParts(k, q, r);
    EraOfYear(era, yoe);
    YearLength(yoe);
    DayOfMonth(y, doy);
    var mp := (5 * doy + 2) / 153;
    var d := doy - MonthStart(mp) + 1;
    ValidParts(y, mp, d);
    assert z == era * 146097 + YearStart(yoe) + MonthStart(mp) + d - 1 - 719468;
    Anatomy(era, k, q, r, mp, d);
  }

  // One day after the other.

  /** The day after a date has the next number. */
  lemma {:induction false} NextDayNumber(c: Date)
    requires Valid(c)
    ensures var n := NextDate(c); Valid(n) && DaysFromCivil(n.year, n.month, n.day) == DaysFromCivil(c.year, c.month, c.day) + 1
  {
    hide *;
    NextIsValid(c);
    var y, mp := MarchParts(c);
    if c.day < MonthDays(c.year, c.month) {
      NextInMonth(y, mp, c.day);
    } else if mp < 11 {
      NextMonth(y, mp);
    } else {
      NextYear(y);
    }
  }

  lemma {:induction false} NextInMonth(y: int, mp: int, d: int)
    requires 0 <= mp < 12 && 1 <= d < MonthDays(CivilYear(y, mp), CivilMonth(mp))
    ensures DaysFromCivil(CivilYear(y, mp), CivilMonth(mp), d + 1) == DaysFromCivil(CivilYear(y, mp), CivilMonth(mp), d) + 1
  {
    hide *;
    var era, k, q, r := PartsOfYear(y);
    Anatomy(era, k, q, r, mp, d);
    Anatomy(era, k, q, r, mp, d + 1);
  }

  lemma {:induction false} NextMonth(y: int, mp: int)
    requires 0 <= mp < 11
    ensures
      var cy, cm := CivilYear(y, mp), CivilMonth(mp);
      DaysFromCivil(CivilYear(y, mp + 1), CivilMonth(mp + 1), 1) == DaysFromCivil(cy, cm, MonthDays(cy, cm)) + 1
  {
    hide *;
    var era, k, q, r := PartsOfYear(y);
    FirstIsValid(y, mp);
    FirstIsValid(y, mp + 1);
    MonthEnds(y, mp);
    Anatomy(era, k, q, r, mp, MonthDays(CivilYear(y, mp), CivilMonth(mp)));
    Anatomy(era, k, q, r, mp + 1, 1);
  }

  lemma {:induction false} NextYear(y: int)
    ensures DaysFromCivil(CivilYear(y + 1, 0), CivilMonth(0), 1) == DaysFromCivil(y + 1, 2, MonthDays(y + 1, 2)) + 1
  {
    hide *;
    MarchIsFirst(y);
    var era, k, q, r := PartsOfYear(y);
    var era1, k1, q1, r1 := PartsOfYear(y + 1);
    FirstIsValid(y, 11);
    FirstIsValid(y + 1, 0);
    Anatomy(era, k, q, r, 11, MonthDays(y + 1, 2));
    Anatomy(era1, k1, q1, r1, 0, 1);
    YearEnds(era, k, q, r, era1, k1, q1, r1);
  }

  lemma {:induction false} MarchIsFirst(y: int)
    ensures MonthStart(0) == 0 && CivilYear(y, 11) == y + 1 && CivilMonth(11) == 2
  {
  }

  /** A date's year and month counted from March, and where the next date falls. */
  lemma {:induction false} MarchParts(c: Date) returns (y: int, mp: int)
    requires Valid(c)
    ensures 0 <= mp < 12 && CivilMonth(mp) == c.month && CivilYear(y, mp) == c.year && 1 <= c.day <= MonthDays(c.year, c.month)
    ensures
      NextDate(c) ==
        if c.day < MonthDays(c.year, c.month) then Date(c.year, c.month, c.day + 1)
        else if mp < 11 then Date(CivilYear(y, mp + 1), CivilMonth(mp + 1), 1)
        else Date(CivilYear(y + 1, 0), CivilMonth(0), 1)
    ensures mp == 11 ==> c.year == y + 1 && c.month == 2
  {
    mp := if c.month > 2 then c.month - 3 else c.month + 9;
    y := if c.month > 2 then c.year else c.year - 1;
  }

  lemma {:induction false} FirstIsValid(y: int, mp: int)
    ensures 1 <= MonthDays(CivilYear(y, mp), CivilMonth(mp))
  {
  }

  lemma {:induction false} NextIsValid(c: Date)
    requires Valid(c)
    ensures Valid(NextDate(c))
  {
  }

  lemma {:induction false} MonthEnds(y: int, mp: int)
    requires 0 <= mp < 11
    ensures MonthStart(mp + 1) == MonthStart(mp) + MonthDays(CivilYear(y, mp), CivilMonth(mp))
  {
    if mp == 0 {} else if mp == 1 {} else if mp == 2 {} else if mp == 3 {} else if mp == 4 {} else if mp == 5 {}
    else if mp == 6 {} else if mp == 7 {} else if mp == 8 {} else if mp == 9 {} else {}
  }

  /** The last day of February is followed by the first day of the next March-year. */
  lemma {:induction false} YearEnds(era: int, k: int, q: int, r: int, era1: int, k1: int, q1: int, r1: int)
    requires 0 <= k < 4 && 0 <= q < 25 && 0 <= r < 4 && 0 <= k1 < 4 && 0 <= q1 < 25 && 0 <= r1 < 4
    requires era1 * 400 + (100 * k1 + 4 * q1 + r1) == era * 400 + (100 * k + 4 * q + r) + 1
    ensures
      var y := era * 400 + (100 * k + 4 * q + r);
      era1 * 146097 + YearStart(100 * k1 + 4 * q1 + r1) == era * 146097 + YearStart(100 * k + 4 * q + r) + MonthStart(11) + MonthDays(y + 1, 2)
  {
    YearParts(k, q, r);
    YearParts(k1, q1, r1);
    EraOfYear(era, 100 * k + 4 * q + r);
    assert era1 == era || era1 == era + 1;
  }

  /** Consecutive days have consecutive dates and weekdays. */
  lemma {:induction false} DaysFollow(z: int)
    ensures CivilFromDays(z + 1) == NextDate(CivilFromDays(z))
    ensures WeekdayFromDays(z + 1) == (WeekdayFromDays(z) + 1) % 7 && 0 <= WeekdayFromDays(z) < 7
  {
    hide DaysFromCivil, CivilFromDays, NextDate, Valid;
    DayRoundTrip(z);
    var c := CivilFromDays(z);
    NextDayNumber(c);
    DateRoundTrip(NextDate(c));
  }

  /** Day 0 is Thursday, the first of January 1970. */
  lemma {:induction false} EpochDay()
    ensures CivilFromDays(0) == Date(1970, 1, 1) && DaysFromCivil(1970, 1, 1) == 0 && WeekdayFromDays(0) == 4
  {
    assert YearStart(369) == 134774 && MonthStart(10) == 306;
    hide DaysFromCivil, CivilFromDays;
    Anatomy(4, 3, 17, 1, 10, 1);
  }

  // Times of day.

  datatype BrokenDown = BrokenDown(year: int, month: int, day: int, hour: int, minute: int, seconds: int, weekDay: int, yearDay: int)

  function Gmtime(secs: int): BrokenDown {
    var days := secs / 86400;
    var rest := secs % 86400;
    var c := CivilFromDays(days);
    BrokenDown(c.year, c.month, c.day, rest / 3600, rest % 3600 / 60, rest % 60, WeekdayFromDays(days), days - DaysFromCivil(c.year, 1, 1))
  }

  function Mktime(year: int, month: int, day: int, hour: int, minute: int, seconds: int): int {
    DaysFromCivil(year, month, day) * 86400 + hour * 3600 + minute * 60 + seconds
  }

  /** Taking a second apart gives a valid date and time, from which it is put together again. */
  lemma {:induction false} TimeRoundTrip(secs: int)
    ensures
      var t := Gmtime(secs);
      && Valid(Date(t.year, t.month, t.day)) && 0 <= t.hour < 24 && 0 <= t.minute < 60 && 0 <= t.seconds < 60
      && Mktime(t.year, t.month, t.day, t.hour, t.minute, t.seconds) == secs
  {
    hide DaysFromCivil, CivilFromDays, Valid;
    DayRoundTrip(secs / 86400);
  }

  /** Second 0 is on a Thursday, seconds of one date are on one weekday, and a day later it is
      the next one. */
  lemma {:induction false} WeekdaysFollow(secs: int, other: int)
    ensures Gmtime(0).weekDay == 4 && 0 <= Gmtime(secs).weekDay < 7
    ensures Gmtime(secs + 86400).weekDay == (Gmtime(secs).weekDay + 1) % 7
    ensures
      var t, u := Gmtime(secs), Gmtime(other);
      t.year == u.year && t.month == u.month && t.day == u.day ==> t.weekDay == u.weekDay
  {
    hide DaysFromCivil, CivilFromDays, NextDate, Valid;
    EpochDay();
    DaysFollow(secs / 86400);
    DayRoundTrip(secs / 86400);
    DayRoundTrip(other / 86400);
    assert (secs + 86400) / 86400 == secs / 86400 + 1;
  }

  /** Any valid date and time comes back from its second. */
  lemma {:induction false} FieldsRoundTrip(c: Date, hour: int, minute: int, seconds: int)
    requires Valid(c) && 0 <= hour < 24 && 0 <= minute < 60 && 0 <= seconds < 60
    ensures
      var t := Gmtime(Mktime(c.year, c.month, c.day, hour, minute, seconds));
      Date(t.year, t.month, t.day) == c && t.hour == hour && t.minute == minute && t.seconds == seconds
  {
    hide DaysFromCivil, CivilFromDays, Valid;
    DateRoundTrip(c);
    var rest := hour * 3600 + minute * 60 + seconds;
    assert 0 <= rest < 86400 && rest / 3600 == hour && rest % 3600 == minute * 60 + seconds;
  }

  /** Days of the months before a month. */
  function DaysBefore(y: int, m: int): int
    requires 1 <= m <= 12
    decreases m
  {
    if m == 1 then 0 else DaysBefore(y, m - 1) + MonthDays(y, m - 1)
  }

  lemma {:induction false} MonthNumber(y: int, m: int)
    requires 1 <= m <= 12
    ensures DaysFromCivil(y, m, 1) == DaysFromCivil(y, 1, 1) + DaysBefore(y, m)
    decreases m
  {
    if m > 1 {
      MonthNumber(y, m - 1);
      DayInMonth(y, m - 1, MonthDays(y, m - 1));
      NextDayNumber(Date(y, m - 1, MonthDays(y, m - 1)));
    }
  }

  lemma {:induction false} DayInMonth(y: int, m: int, d: int)
    ensures DaysFromCivil(y, m, d) == DaysFromCivil(y, m, 1) + d - 1
  {
  }

  /** The day of the year counts the days since New Year. */
  lemma {:induction false} YearDayCounts(secs: int)
    ensures
      var t := Gmtime(secs);
      1 <= t.month <= 12 && t.yearDay == DaysBefore(t.year, t.month) + t.day - 1
  {
    hide DaysFromCivil, CivilFromDays, DaysBefore;
    DayRoundTrip(secs / 86400);
    var c := CivilFromDays(secs / 86400);
    MonthNumber(c.year, c.month);
    DayInMonth(c.year, c.month, c.day);
  }
}
