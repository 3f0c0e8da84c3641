/** Civil dates from day numbers and back: the arithmetic of `http_date` and `days_from_civil`
    in crates/ozone-s3-gw/src/lib.rs, and the Gregorian calendar it computes. */
module Calendar {
  datatype Civil = Civil(year: int, month: int, day: int)

  /** Division that truncates toward zero. */
  function Quot(a: int, b: int): int
    requires b > 0
  {
    if a >= 0 then a / b else -((-a) / b)
  }

  /** Days before the yoe-th year of a 400-year era that starts on 1 March. */
  function YearStart(yoe: int): int {
    365 * yoe + yoe / 4 - yoe / 100
  }

  /** Days before the mp-th month of a year that starts in March. */
  function MonthStart(mp: int): int {
    (153 * mp + 2) / 5
  }

  function EraOf(z: int): int {
    Quot(if z >= 0 then z else z - 146_096, 146_097)
  }

  function YearOfEra(doe: int): int {
    (doe - doe / 1460 + doe / 36_524 - doe / 146_096) / 365
  }

  function MonthOf(doy: int): int {
    (5 * doy + 2) / 153
  }

  /** A day number as era, year of era and day of year. */
  datatype Parts = Parts(era: int, yoe: int, doy: int)

  function PartsFromDays(days: int): Parts {
    var z := days + 719_468;
    var era := EraOf(z);
    var doe := z - era * 146_097;
    var yoe := YearOfEra(doe);
    Parts(era, yoe, doe - YearStart(yoe))
  }

  /** The civil date of a day of a year. */
  function CivilAt(p: Parts): Civil {
    var y := p.yoe + p.era * 400;
    var mp := MonthOf(p.doy);
    var d := p.doy - MonthStart(mp) + 1;
    var m := if mp < 10 then mp + 3 else mp - 9;
    Civil(if m <= 2 then y + 1 else y, m, d)
  }

  function CivilFromDays(days: int): Civil {
    CivilAt(PartsFromDays(days))
  }

  function DaysFromCivil(year: int, month: int, day: int): int {
    var y := if month <= 2 then year - 1 else year;
    var era := Quot(if y >= 0 then y else y - 399, 400);
    var yoe := y - era * 400;
    var doy := MonthStart(if month > 2 then month - 3 else month + 9) + day - 1;
    var doe := YearStart(yoe) + doy;
    era * 146_097 + doe - 719_468
  }

  // ---- bounds ----

  lemma EraBounds(z: int)
    ensures 0 <= z - EraOf(z) * 146_097 <= 146_096
  {}

  lemma EraUnique(z: int, era: int)
    requires 0 <= z - era * 146_097 <= 146_096
    ensures EraOf(z) == era
  {
    EraBounds(z);
  }

  /** The last day of the year, counted within it. */
  function LastDay(yoe: int): int {
    if yoe % 4 == 3 && (yoe % 100 != 99 || yoe == 399) then 365 else 364
  }

  /** A year of an era as century, leap cycle and year of the cycle. */
  lemma YearParts(c: int, q: int, t: int)
    requires 0 <= c < 4 && 0 <= q < 25 && 0 <= t < 4
    ensures var yoe := 100 * c + 4 * q + t;
            yoe / 4 == 25 * c + q && yoe / 100 == c && yoe % 4 == t && yoe % 100 == 4 * q + t
  {}

  lemma QuotientShift(n: int, e: int)
    ensures (1460 * n + e) / 1460 == n + e / 1460
  {}

  /** Every 36524 days a century ends; the last century of an era is a day longer. */
  lemma CenturyOf(c: int, r: int)
    requires 0 <= c < 4 && 0 <= r <= 36_524 && (r == 36_524 ==> c == 3)
    ensures var doe := 36_524 * c + r; doe / 36_524 - doe / 146_096 == c
  {}

  lemma WholeYears(yoe: int, d: int)
    requires 0 <= d <= 364
    ensures (365 * yoe + d) / 365 == yoe
  {}

  /** Day `d` of year `yoe` is found again, leap years included. */
  lemma YearFound(c: int, q: int, t: int, d: int)
    requires 0 <= c < 4 && 0 <= q < 25 && 0 <= t < 4
    requires var yoe := 100 * c + 4 * q + t; 0 <= d <= LastDay(yoe)
    ensures var yoe := 100 * c + 4 * q + t; YearOfEra(YearStart(yoe) + d) == yoe
  {
    YearParts(c, q, t);
    var yoe := 100 * c + 4 * q + t;
    assert d == 365 ==> t == 3 && (q < 24 || c == 3);
    var doe := YearStart(yoe) + d;
    var r, e := 1461 * q + 365 * t + d, 365 * t + 24 * c + q + d;
    assert doe == 36_524 * c + r && doe == 1460 * (25 * c + q) + e;
    CenturyOf(c, r);
    QuotientShift(25 * c + q, e);
    var carry := e / 1460;
    assert carry == if e >= 1460 then 1 else 0;
    hide YearStart, LastDay;
    WholeYears(yoe, d - carry);
  }

  predicate ValidParts(p: Parts) {
    0 <= p.yoe < 400 && 0 <= p.doy <= LastDay(p.yoe)
  }

  function DayOf(p: Parts): int {
    p.era * 146_097 + YearStart(p.yoe) + p.doy - 719_468
  }

  /** Cutting a 400-year era into centuries, leap cycles and years. */
  lemma CutEra(doe: int) returns (yoe: int, d: int)
    requires 0 <= doe <= 146_096
    ensures 0 <= yoe < 400 && 0 <= d <= LastDay(yoe) && doe == YearStart(yoe) + d && YearOfEra(doe) == yoe
  {
    var c := if doe == 146_096 then 3 else doe / 36_524;
    var r := doe - 36_524 * c;
    var q := if r == 36_524 then 24 else r / 1461;
    var s := r - 1461 * q;
    var t := if s == 1460 then 3 else s / 365;
    yoe, d := 100 * c + 4 * q + t, s - 365 * t;
    assert yoe / 4 == 25 * c + q && yoe / 100 == c && yoe % 4 == t && yoe % 100 == 4 * q + t;
    YearFound(c, q, t, d);
  }

  /** The parts computed for a day are valid and lead back to it. */
  lemma PartsAreValid(days: int)
    ensures ValidParts(PartsFromDays(days)) && DayOf(PartsFromDays(days)) == days
  {
    var z := days + 719_468;
    EraBounds(z);
    var doe := z - EraOf(z) * 146_097;
    hide EraOf, YearOfEra, YearStart, LastDay;
    var yoe, d := CutEra(doe);
  }

  lemma YearFoundAt(yoe: int, d: int)
    requires 0 <= yoe < 400 && 0 <= d <= LastDay(yoe)
    ensures YearOfEra(YearStart(yoe) + d) == yoe
  {
    hide YearOfEra, YearStart, LastDay;
    assert yoe == 100 * (yoe / 100) + 4 * (yoe % 100 / 4) + yoe % 4;
    YearFound(yoe / 100, yoe % 100 / 4, yoe % 4, d);
  }

  /** Valid parts are the ones computed for their day. */
  lemma PartsFound(p: Parts)
    requires ValidParts(p)
    ensures PartsFromDays(DayOf(p)) == p
  {
    hide YearOfEra, YearStart, EraOf, LastDay;
    YearEnd(p.yoe);
    EraUnique(DayOf(p) + 719_468, p.era);
    YearFoundAt(p.yoe, p.doy);
  }

  lemma NextQuotients(y: int)
    ensures (y + 1) / 4 == y / 4 + (if y % 4 == 3 then 1 else 0)
    ensures (y + 1) / 100 == y / 100 + (if y % 100 == 99 then 1 else 0)
  {}

  /** A year ends where the next one starts; the era has 146097 days. */
  lemma YearEnd(yoe: int)
    requires 0 <= yoe < 400
    ensures 0 <= YearStart(yoe) && YearStart(yoe) + LastDay(yoe) <= 146_096
    ensures yoe < 399 ==> YearStart(yoe + 1) == YearStart(yoe) + LastDay(yoe) + 1
    ensures yoe == 399 ==> YearStart(yoe) + LastDay(yoe) == 146_096
  {
    NextQuotients(yoe);
    HundredMeansFour(yoe);
    QuotientBounds(yoe);
  }

  lemma HundredMeansFour(y: int)
    ensures y % 100 == 99 ==> y % 4 == 3
  {
    if y % 100 == 99 {
      var n := 25 * (y / 100) + 24;
      assert y == 4 * n + 3;
      Shift4(3, n);
    }
  }

  lemma QuotientBounds(y: int)
    requires 0 <= y < 400
    ensures 0 <= y / 100 <= y / 4 <= 99 && (y == 399 ==> y / 4 == 99 && y / 100 == 3)
  {}

  // ---- the round trip ----

  lemma MonthBounds(doy: int)
    requires 0 <= doy <= 365
    ensures 0 <= MonthOf(doy) <= 11 && 1 <= doy - MonthStart(MonthOf(doy)) + 1 <= 31
  {}

  lemma EraOfYear(era: int, yoe: int)
    requires 0 <= yoe < 400
    ensures var y := yoe + era * 400; Quot(if y >= 0 then y else y - 399, 400) == era
  {}

  /** The civil date of a day number leads back to it, for every day of every era. */
  lemma DaysRoundTrip(days: int)
    ensures var c := CivilFromDays(days);
      1 <= c.month <= 12 && 1 <= c.day <= 31 && DaysFromCivil(c.year, c.month, c.day) == days
  {
    hide YearOfEra, YearStart, MonthOf, MonthStart, EraOf, Quot, PartsFromDays;
    PartsAreValid(days);
    var p := PartsFromDays(days);
    MonthBounds(p.doy);
    EraOfYear(p.era, p.yoe);
  }

  // ---- the calendar ----

  predicate Leap(year: int) {
    year % 4 == 0 && (year % 100 != 0 || year % 400 == 0)
  }

  function DaysIn(year: int, month: int): int {
    if month == 2 then (if Leap(year) then 29 else 28)
    else if month == 4 || month == 6 || month == 9 || month == 11 then 30
    else 31
  }

  function NextDay(c: Civil): Civil {
    if c.day < DaysIn(c.year, c.month) then c.(day := c.day + 1)
    else if c.month < 12 then Civil(c.year, c.month + 1, 1)
    else Civil(c.year + 1, 1, 1)
  }

  lemma ShiftByEras(y: int, era: int)
    ensures (y + era * 400) % 400 == y % 400
    ensures (y + era * 400) % 100 == y % 100
    ensures (y + era * 400) % 4 == y % 4
  {
    Shift400(y, era);
    Shift100(y, 4 * era);
    Shift4(y, 100 * era);
  }

  lemma Shift400(y: int, w: int)
    ensures (y + 400 * w) % 400 == y % 400
  {}

  lemma Shift100(y: int, w: int)
    ensures (y + 100 * w) % 100 == y % 100
  {}

  lemma Shift4(y: int, w: int)
    ensures (y + 4 * w) % 4 == y % 4
  {}

  lemma LeapYears(era: int, yoe: int)
    requires 0 <= yoe < 400
    ensures LastDay(yoe) == if Leap(yoe + era * 400 + 1) then 365 else 364
  {
    ShiftByEras(yoe + 1, era);
    LeapInEra(yoe);
    assert yoe + era * 400 + 1 == yoe + 1 + era * 400;
    hide LastDay;
  }

  lemma LeapInEra(yoe: int)
    requires 0 <= yoe < 400
    ensures LastDay(yoe) == if Leap(yoe + 1) then 365 else 364
  {}

  /** The month changes exactly where the next one starts. */
  lemma MonthAdvances(doy: int)
    requires 0 <= doy < 365
    ensures var mp := MonthOf(doy);
            && MonthStart(mp) <= doy < MonthStart(mp + 1)
            && MonthOf(doy + 1) == if doy + 1 == MonthStart(mp + 1) then mp + 1 else mp
  {}

  /** March to January have the calendar's lengths. */
  lemma MonthLength(mp: int, year: int)
    requires 0 <= mp <= 11
    ensures mp < 11 ==> MonthStart(mp + 1) - MonthStart(mp) == DaysIn(year, if mp < 10 then mp + 3 else mp - 9)
    ensures mp == 11 ==> MonthStart(mp) == 337 && MonthStart(mp + 1) == 367
  {
    hide Leap;
  }

  lemma NextInYear(p: Parts)
    requires ValidParts(p) && p.doy < LastDay(p.yoe)
    ensures CivilAt(p.(doy := p.doy + 1)) == NextDay(CivilAt(p))
  {
    hide LastDay, Leap, MonthOf, MonthStart;
    LeapYears(p.era, p.yoe);
    MonthBounds(p.doy);
    MonthAdvances(p.doy);
    MonthLength(MonthOf(p.doy), CivilAt(p).year);
  }

  lemma FirstAndLastDay(p: Parts)
    requires ValidParts(p)
    ensures p.doy == 0 ==> CivilAt(p) == Civil(p.yoe + p.era * 400, 3, 1)
    ensures p.doy == LastDay(p.yoe) ==> CivilAt(p) == Civil(p.yoe + p.era * 400 + 1, 2, p.doy - 336)
  {}

  lemma DayAfter(p: Parts) returns (n: Parts)
    requires ValidParts(p)
    ensures ValidParts(n) && DayOf(n) == DayOf(p) + 1
    ensures p.doy < LastDay(p.yoe) ==> n == p.(doy := p.doy + 1)
    ensures p.doy == LastDay(p.yoe) ==> n.doy == 0 && n.yoe + n.era * 400 == p.yoe + p.era * 400 + 1
  {
    YearEnd(p.yoe);
    n := if p.doy < LastDay(p.yoe) then p.(doy := p.doy + 1)
         else if p.yoe < 399 then Parts(p.era, p.yoe + 1, 0)
         else Parts(p.era + 1, 0, 0);
    assert YearStart(0) == 0;
    hide YearStart;
  }

  /** Day 0 is 1 January 1970. */
  lemma Epoch()
    ensures CivilFromDays(0) == Civil(1970, 1, 1)
  {}

  /** Each day is the Gregorian calendar's successor of the one before. */
  lemma CalendarIsGregorian(days: int)
    ensures CivilFromDays(days + 1) == NextDay(CivilFromDays(days))
  {
    hide LastDay, CivilAt, PartsFromDays, DayOf, Leap;
    PartsAreValid(days);
    var p := PartsFromDays(days);
    var n := DayAfter(p);
    PartsFound(n);
    if p.doy < LastDay(p.yoe) {
      NextInYear(p);
    } else {
      LeapYears(p.era, p.yoe);
      FirstAndLastDay(p);
      FirstAndLastDay(n);
    }
  }
}
