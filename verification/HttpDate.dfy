/** HTTP dates (IMF-fixdate, section 7.1.1.1 of RFC 7231): crates/ozone-s3-gw/src/lib.rs. */
module HttpDate {
  import opened Wrappers
  import opened Text
  import opened Numerals
  import opened Calendar

  const U64_MAX: nat := 0xFFFF_FFFF_FFFF_FFFF

  function DayName(d: int): string {
    match d
    case 0 => "Sun" case 1 => "Mon" case 2 => "Tue" case 3 => "Wed" case 4 => "Thu" case 5 => "Fri" case _ => "Sat"
  }

  function MonthName(m: int): string {
    match m
    case 1 => "Jan" case 2 => "Feb" case 3 => "Mar" case 4 => "Apr" case 5 => "May" case 6 => "Jun"
    case 7 => "Jul" case 8 => "Aug" case 9 => "Sep" case 10 => "Oct" case 11 => "Nov" case _ => "Dec"
  }

  // ---- printing ----

  function Weekday(days: int): string {
    DayName((days % 7 + 4) % 7)
  }

  function TimeOfDay(rem: nat): string {
    Padded(rem / 3600, 2) + ":" + Padded(rem % 3600 / 60, 2) + ":" + Padded(rem % 60, 2)
  }

  function FormatDate(dow: string, c: Civil, rem: nat): string
    requires 1 <= c.month <= 12 && c.day >= 0 && c.year >= 0
  {
    dow + ", " + Padded(c.day, 2) + " " + MonthName(c.month) + " " + Padded(c.year, 4) + " " + TimeOfDay(rem) + " GMT"
  }

  function Format(ms: nat): string {
    var secs := ms / 1000;
    var days := secs / 86_400;
    CivilFields(days);
    FormatDate(Weekday(days), CivilFromDays(days), secs % 86_400)
  }

  /** From 1970 on every field is non-negative and the year stays below the day number's scale. */
  lemma CivilFields(days: nat)
    ensures var c := CivilFromDays(days); 1 <= c.month <= 12 && 1 <= c.day <= 31 && 0 <= c.year <= days + 719_869
  {
    hide YearOfEra, YearStart, MonthOf, MonthStart, EraOf, PartsFromDays;
    DaysRoundTrip(days);
    PartsAreValid(days);
    YearEnd(PartsFromDays(days).yoe);
  }

  // ---- parsing ----

  /** How many leading characters are not white. */
  function WordLen(s: string): (n: nat)
    ensures n <= |s| && (forall i :: 0 <= i < n ==> !White(s[i])) && (n < |s| ==> White(s[n]))
  {
    if s == "" || White(s[0]) then 0 else 1 + WordLen(s[1..])
  }

  function Words(s: string): seq<string>
    decreases |s|
  {
    if s == "" then []
    else if White(s[0]) then Words(s[1..])
    else [s[..WordLen(s)]] + Words(s[WordLen(s)..])
  }

  function SplitOn(s: string, c: char): (r: seq<string>)
    ensures r != []
  {
    match Find(s, [c])
    case None => [s]
    case Some(i) => [s[..i]] + SplitOn(s[i + 1..], c)
  }

  /** The first month, from m on, of this name. */
  function MonthNumber(name: string, m: int): Option<int>
    requires 1 <= m <= 13
    decreases 13 - m
  {
    if m == 13 then None else if MonthName(m) == name then Some(m) else MonthNumber(name, m + 1)
  }

  function ParseTime(t: string): Option<int> {
    var parts := SplitOn(t, ':');
    if |parts| < 3 then None
    else
      var hh, mm, ss := ParseI64(parts[0]), ParseI64(parts[1]), ParseI64(parts[2]);
      if hh.None? || mm.None? || ss.None? then None
      else if !(0 <= hh.value <= 23) || !(0 <= mm.value <= 59) || !(0 <= ss.value <= 60) then None
      else Some(hh.value * 3600 + mm.value * 60 + ss.value)
  }

  function ParseWords(w: seq<string>): Option<nat> {
    if |w| < 4 then None
    else
      var day, month, year, time := ParseI64(w[0]), MonthNumber(w[1], 1), ParseI64(w[2]), ParseTime(w[3]);
      if day.None? || month.None? || year.None? || time.None? || !(1 <= day.value <= 31) then None
      else
        var secs := DaysFromCivil(year.value, month.value, day.value) * 86_400 + time.value;
        if 0 <= secs <= U64_MAX then Some(secs) else None
  }

  /** Everything after the first comma, if there is one. */
  function AfterComma(s: string): string {
    match Find(s, ",") case None => s case Some(i) => s[i + 1..]
  }

  function Parse(s: string): Option<nat> {
    ParseWords(Words(AfterComma(s)))
  }

  // ---- cutting what was joined ----

  predicate Word(s: string) {
    s != "" && forall i :: 0 <= i < |s| ==> !White(s[i])
  }

  lemma {:induction false} WordLenOf(w: string, rest: string)
    requires (forall i :: 0 <= i < |w| ==> !White(w[i])) && (rest == "" || White(rest[0]))
    ensures WordLen(w + rest) == |w|
  {
    if w == "" {
      assert w + rest == rest;
    } else {
      WordLenOf(w[1..], rest);
      assert (w + rest)[1..] == w[1..] + rest;
    }
  }

  lemma WordsCons(w: string, rest: string)
    requires Word(w)
    ensures Words(w + " " + rest) == [w] + Words(rest)
  {
    var s := w + " " + rest;
    assert s == w + (" " + rest);
    WordLenOf(w, " " + rest);
    assert s[..|w|] == w && s[|w|..] == " " + rest;
    assert (" " + rest)[1..] == rest;
  }

  lemma SplitCons(w: string, c: char, rest: string)
    requires c !in w
    ensures SplitOn(w + [c] + rest, c) == [w] + SplitOn(rest, c)
  {
    FindChar(w, c, rest);
    var s := w + [c] + rest;
    assert s[..|w|] == w && s[|w| + 1..] == rest;
  }

  lemma DecimalIsWord(n: nat, width: nat)
    ensures Word(Padded(n, width)) && ':' !in Padded(n, width)
  {
    PaddedIsDecimal(n, width);
    hide Padded;
  }

  // ---- the round trip ----

  lemma ClockFields(rem: nat)
    requires rem < 86_400
    ensures var hh, mm, ss := rem / 3600, rem % 3600 / 60, rem % 60;
            rem == hh * 3600 + mm * 60 + ss && 0 <= hh <= 23 && 0 <= mm <= 59 && 0 <= ss <= 59
  {}

  lemma SplitTime(a: string, b: string, c: string)
    requires ':' !in a && ':' !in b && ':' !in c
    ensures SplitOn(a + ":" + b + ":" + c, ':') == [a, b, c]
  {
    var t := a + ":" + b + ":" + c;
    assert t == a + [':'] + (b + [':'] + c);
    FindAbsent(c, ':');
    assert SplitOn(c, ':') == [c];
    hide SplitOn;
    SplitCons(a, ':', b + [':'] + c);
    SplitCons(b, ':', c);
  }

  lemma ParseClock(a: string, b: string, c: string, hh: nat, mm: nat, ss: nat)
    requires ':' !in a && ':' !in b && ':' !in c && hh <= 23 && mm <= 59 && ss <= 59
    requires ParseI64(a) == Some(hh) && ParseI64(b) == Some(mm) && ParseI64(c) == Some(ss)
    ensures ParseTime(a + ":" + b + ":" + c) == Some(hh * 3600 + mm * 60 + ss)
  {
    hide ParseI64, SplitOn;
    SplitTime(a, b, c);
  }

  lemma TimeRoundTrip(rem: nat)
    requires rem < 86_400
    ensures ParseTime(TimeOfDay(rem)) == Some(rem)
  {
    hide Padded, ParseI64, ParseTime, Word;
    ClockFields(rem);
    var hh, mm, ss := rem / 3600, rem % 3600 / 60, rem % 60;
    DecimalIsWord(hh, 2);
    DecimalIsWord(mm, 2);
    DecimalIsWord(ss, 2);
    ParsePadded(hh, 2);
    ParsePadded(mm, 2);
    ParsePadded(ss, 2);
    ParseClock(Padded(hh, 2), Padded(mm, 2), Padded(ss, 2), hh, mm, ss);
  }

  lemma TimeIsWord(rem: nat)
    ensures Word(TimeOfDay(rem))
  {
    DecimalIsWord(rem / 3600, 2);
    DecimalIsWord(rem % 3600 / 60, 2);
    DecimalIsWord(rem % 60, 2);
    var a, b, c := Padded(rem / 3600, 2), Padded(rem % 3600 / 60, 2), Padded(rem % 60, 2);
    assert !White(':');
    hide Padded, White;
    WordJoin(a, ":");
    WordJoin(a + ":", b);
    WordJoin(a + ":" + b, ":");
    WordJoin(a + ":" + b + ":", c);
  }

  lemma WordJoin(a: string, b: string)
    requires Word(a) && Word(b)
    ensures Word(a + b)
  {}

  lemma NamesDiffer(i: int, j: int)
    requires 1 <= i < j <= 12
    ensures MonthName(i) != MonthName(j)
  {
    var a, b := MonthName(i), MonthName(j);
    assert a[0] != b[0] || a[1] != b[1] || a[2] != b[2];
  }

  lemma {:induction false} MonthRoundTrip(m: int, from: int)
    requires 1 <= from <= m <= 12
    ensures MonthNumber(MonthName(m), from) == Some(m)
    decreases m - from
  {
    hide MonthName;
    if from < m {
      NamesDiffer(from, m);
      MonthRoundTrip(m, from + 1);
    }
  }

  lemma MonthIsWord(m: int)
    ensures Word(MonthName(m))
  {}

  /** Cutting the text of a date gives its fields. */
  lemma DateWords(dow: string, d: string, m: string, y: string, t: string)
    requires ',' !in dow && Word(d) && Word(m) && Word(y) && Word(t)
    ensures Words(AfterComma(dow + ", " + d + " " + m + " " + y + " " + t + " GMT")) == [d, m, y, t, "GMT"]
  {
    hide Word, White, Words;
    var last := t + " " + "GMT";
    var three := y + " " + last;
    var two := m + " " + three;
    var tail := d + " " + two;
    JoinedDate(dow, d, m, y, t);
    FindChar(dow, ',', " " + tail);
    assert AfterComma(dow + [','] + (" " + tail)) == " " + tail;
    LeadingSpace(tail);
    WordsCons(d, two);
    WordsCons(m, three);
    WordsCons(y, last);
    WordsCons(t, "GMT");
    LastWord();
  }

  lemma JoinedDate(dow: string, d: string, m: string, y: string, t: string)
    ensures dow + ", " + d + " " + m + " " + y + " " + t + " GMT" == dow + [','] +
      (" " + (d + " " + (m + " " + (y + " " + (t + " " + "GMT")))))
  {
    assert ", " == [','] + " " && " GMT" == " " + "GMT";
  }

  lemma LeadingSpace(s: string)
    ensures Words(" " + s) == Words(s)
  {
    assert (" " + s)[1..] == s;
  }

  lemma LastWord()
    ensures Words("GMT") == ["GMT"]
  {
    WordLenOf("GMT", "");
    assert "GMT" + "" == "GMT";
  }

  lemma SplitSeconds(secs: nat)
    ensures secs / 86_400 * 86_400 + secs % 86_400 == secs && secs % 86_400 < 86_400
  {}

  lemma DateTextRoundTrip(days: nat, rem: nat)
    requires rem < 86_400 && days * 86_400 + rem <= U64_MAX
    ensures var c := CivilFromDays(days);
            && 1 <= c.month <= 12 && c.day >= 0 && c.year >= 0
            && Parse(FormatDate(Weekday(days), c, rem)) == Some(days * 86_400 + rem)
  {
    hide CivilFromDays, TimeOfDay, MonthName, Padded, Weekday, Words, AfterComma, Word, ParseWords;
    CivilFields(days);
    var c := CivilFromDays(days);
    NoComma(days);
    DecimalIsWord(c.day, 2);
    MonthIsWord(c.month);
    DecimalIsWord(c.year, 4);
    TimeIsWord(rem);
    DateWords(Weekday(days), Padded(c.day, 2), MonthName(c.month), Padded(c.year, 4), TimeOfDay(rem));
    FieldsRoundTrip(days, rem);
  }

  /** A printed date parses back to its second, for every 64-bit millisecond count. */
  lemma DateRoundTrip(ms: nat)
    requires ms <= U64_MAX
    ensures Parse(Format(ms)) == Some(ms / 1000)
  {
    hide Parse, FormatDate, CivilFromDays, Weekday;
    SplitSeconds(ms / 1000);
    DateTextRoundTrip(ms / 1000 / 86_400, ms / 1000 % 86_400);
  }

  lemma FieldsRoundTrip(days: nat, rem: nat)
    requires rem < 86_400 && days * 86_400 + rem <= U64_MAX
    ensures var c := CivilFromDays(days);
            && 1 <= c.month <= 12 && c.day >= 0 && c.year >= 0
            && ParseWords([Padded(c.day, 2), MonthName(c.month), Padded(c.year, 4), TimeOfDay(rem), "GMT"]) ==
              Some(days * 86_400 + rem)
  {
    hide CivilFromDays, DaysFromCivil, ParseTime, TimeOfDay, MonthNumber, MonthName, Padded, ParseI64;
    CivilFields(days);
    var c := CivilFromDays(days);
    DaysRoundTrip(days);
    ParsePadded(c.day, 2);
    ParsePadded(c.year, 4);
    MonthRoundTrip(c.month, 1);
    TimeRoundTrip(rem);
  }

  lemma NoComma(days: int)
    ensures ',' !in Weekday(days)
  {}

  // ---- what a printed date looks like ----

  lemma DayNameIs(d: int)
    requires 0 <= d < 7
    ensures DayName(d) == "SunMonTueWedThuFriSat"[3 * d..3 * d + 3]
  {
    var all := "SunMonTueWedThuFriSat";
    assert DayName(d)[0] == all[3 * d] && DayName(d)[1] == all[3 * d + 1] && DayName(d)[2] == all[3 * d + 2];
  }

  lemma MonthNameIs(m: int)
    requires 1 <= m <= 12
    ensures m <= 6 ==> MonthName(m) == "JanFebMarAprMayJun"[3 * m - 3..3 * m]
    ensures m > 6 ==> MonthName(m) == "JulAugSepOctNovDec"[3 * m - 21..3 * m - 18]
  {
    if m <= 6 { FirstHalf(m); } else { SecondHalf(m); }
  }

  lemma FirstHalf(m: int)
    requires 1 <= m <= 6
    ensures MonthName(m) == "JanFebMarAprMayJun"[3 * m - 3..3 * m]
  {
    var all, i := "JanFebMarAprMayJun", 3 * m - 3;
    assert MonthName(m)[0] == all[i] && MonthName(m)[1] == all[i + 1] && MonthName(m)[2] == all[i + 2];
  }

  lemma SecondHalf(m: int)
    requires 7 <= m <= 12
    ensures MonthName(m) == "JulAugSepOctNovDec"[3 * m - 21..3 * m - 18]
  {
    var all, i := "JulAugSepOctNovDec", 3 * m - 21;
    assert MonthName(m)[0] == all[i] && MonthName(m)[1] == all[i + 1] && MonthName(m)[2] == all[i + 2];
  }

  /** The name of the day after the one named. */
  function NextName(name: string): string {
    if name == "Sun" then "Mon" else if name == "Mon" then "Tue" else if name == "Tue" then "Wed"
    else if name == "Wed" then "Thu" else if name == "Thu" then "Fri" else if name == "Fri" then "Sat" else "Sun"
  }

  /** 1970 began on a Thursday, and the days of the week follow each other. */
  lemma WeekdaysFollow(days: int)
    ensures Weekday(0) == "Thu" && Weekday(days + 1) == NextName(Weekday(days))
  {
    var d := (days % 7 + 4) % 7;
    assert ((days + 1) % 7 + 4) % 7 == (d + 1) % 7;
    NextDay(d);
    hide DayName, NextName;
    assert Weekday(0) == DayName(4);
  }

  lemma NextDay(d: int)
    requires 0 <= d < 7
    ensures DayName((d + 1) % 7) == NextName(DayName(d)) && DayName(4) == "Thu"
  {
    assert DayName(d)[0] == "SMTWTFS"[d] && DayName(d)[1] == "uouehra"[d];
  }

  lemma PadWidths(c: Civil, rem: nat)
    requires 0 <= c.day <= 31 && 0 <= c.year <= 9999 && rem < 86_400
    ensures |Padded(c.day, 2)| == 2 && |Padded(c.year, 4)| == 4
    ensures |Padded(rem / 3600, 2)| == |Padded(rem % 3600 / 60, 2)| == |Padded(rem % 60, 2)| == 2
  {
    assert Pow10(1) == 10 && Pow10(2) == 100 && Pow10(3) == 1000 && Pow10(4) == 10_000;
    ClockFields(rem);
    hide Padded, Pow10;
    PaddedLength(c.day, 2);
    PaddedLength(c.year, 4);
    PaddedLength(rem / 3600, 2);
    PaddedLength(rem % 3600 / 60, 2);
    PaddedLength(rem % 60, 2);
  }

  lemma ClockColumns(hh: string, mm: string, ss: string)
    requires |hh| == |mm| == |ss| == 2
    ensures var t := hh + ":" + mm + ":" + ss;
      |t| == 8 && t[0..2] == hh && t[2] == ':' && t[3..5] == mm && t[5] == ':' && t[6..8] == ss
  {}

  lemma DayColumns(dow: string, d: string, m: string)
    requires |dow| == |m| == 3 && |d| == 2
    ensures var f := dow + ", " + d + " " + m + " ";
      && |f| == 12 && f[0..3] == dow && f[3..5] == ", " && f[5..7] == d && f[7] == ' ' && f[8..11] == m && f[11] == ' '
  {}

  lemma YearColumns(y: string)
    requires |y| == 4
    ensures var f := y + " "; |f| == 5 && f[0..4] == y && f[4] == ' '
  {}

  lemma DateParts(dow: string, d: string, m: string, y: string, t: string)
    ensures dow + ", " + d + " " + m + " " + y + " " + t + " GMT" ==
      (dow + ", " + d + " " + m + " ") + (y + " ") + t + " GMT"
  {}

  /** Fixed columns: where each field of a date stands. */
  lemma Columns(dow: string, d: string, m: string, y: string, hh: string, mm: string, ss: string)
    requires |dow| == |m| == 3 && |y| == 4 && |d| == |hh| == |mm| == |ss| == 2
    ensures var f := dow + ", " + d + " " + m + " " + y + " " + (hh + ":" + mm + ":" + ss) + " GMT";
      && |f| == 29
      && f[..3] == dow && f[3..5] == ", " && f[5..7] == d && f[7] == ' ' && f[8..11] == m && f[11] == ' '
      && f[12..16] == y && f[16] == ' ' && f[17..19] == hh && f[19] == ':' && f[20..22] == mm && f[22] == ':'
      && f[23..25] == ss && f[25..] == " GMT"
  {
    var a, b, c := dow + ", " + d + " " + m + " ", y + " ", hh + ":" + mm + ":" + ss;
    DateParts(dow, d, m, y, c);
    DayColumns(dow, d, m);
    YearColumns(y);
    ClockColumns(hh, mm, ss);
    ThreeParts(a, b, c, " GMT");
  }

  /** Columns of the parts are columns of the whole. */
  lemma ThreeParts(a: string, b: string, c: string, z: string)
    requires |a| == 12 && |b| == 5 && |c| == 8 && |z| == 4
    ensures var f := a + b + c + z;
      && |f| == 29 && f[..3] == a[0..3] && f[3..5] == a[3..5] && f[5..7] == a[5..7] && f[7] == a[7]
      && f[8..11] == a[8..11] && f[11] == a[11] && f[12..16] == b[0..4] && f[16] == b[4] && f[17..19] == c[0..2]
      && f[19] == c[2] && f[20..22] == c[3..5] && f[22] == c[5] && f[23..25] == c[6..8] && f[25..] == z
  {}

  /** A date's fields stand in their own columns. */
  ghost predicate InColumns(f: string, dow: string, c: Civil, rem: nat) {
    && |f| == 29 && f[..3] == dow && f[3..5] == ", " && f[7] == f[11] == f[16] == ' '
    && Value(f[5..7], 10) == Some(c.day) && f[8..11] == MonthName(c.month) && Value(f[12..16], 10) == Some(c.year)
    && Value(f[17..19], 10) == Some(rem / 3600) && Value(f[20..22], 10) == Some(rem % 3600 / 60)
    && Value(f[23..25], 10) == Some(rem % 60) && f[19] == f[22] == ':' && f[25..] == " GMT"
  }

  lemma FieldColumns(dow: string, c: Civil, rem: nat)
    requires |dow| == 3 && 1 <= c.month <= 12 && 0 <= c.day <= 31 && 0 <= c.year <= 9999 && rem < 86_400
    ensures InColumns(FormatDate(dow, c, rem), dow, c, rem)
  {
    assert |MonthName(c.month)| == 3;
    hide Padded, Value, MonthName;
    PadWidths(c, rem);
    PaddedRoundTrip(c.day, 2);
    PaddedRoundTrip(c.year, 4);
    PaddedRoundTrip(rem / 3600, 2);
    PaddedRoundTrip(rem % 3600 / 60, 2);
    PaddedRoundTrip(rem % 60, 2);
    Columns(dow, Padded(c.day, 2), MonthName(c.month), Padded(c.year, 4), Padded(rem / 3600, 2),
      Padded(rem % 3600 / 60, 2), Padded(rem % 60, 2));
  }

  /** Up to the year 9999 a printed date has 29 characters: the weekday, the day, the month, the year and the time. */
  lemma DateColumns(ms: nat)
    requires CivilFromDays(ms / 1000 / 86_400).year <= 9999
    ensures var days := ms / 1000 / 86_400;
      InColumns(Format(ms), Weekday(days), CivilFromDays(days), ms / 1000 % 86_400)
  {
    var days := ms / 1000 / 86_400;
    assert |Weekday(days)| == 3;
    hide CivilFromDays, Weekday, FormatDate, InColumns;
    CivilFields(days);
    FieldColumns(Weekday(days), CivilFromDays(days), ms / 1000 % 86_400);
  }

  // ---- what is refused ----

  /** The time, in seconds, that three fields within their ranges give. */
  ghost predicate Clock(a: string, b: string, c: string, secs: int) {
    && ParseI64(a).Some? && 0 <= ParseI64(a).value < 24
    && ParseI64(b).Some? && 0 <= ParseI64(b).value < 60
    && ParseI64(c).Some? && 0 <= ParseI64(c).value <= 60
    && secs == (ParseI64(a).value * 60 + ParseI64(b).value) * 60 + ParseI64(c).value
  }

  /** A clock time is read if and only if its three fields are numbers within their ranges. */
  lemma ClockIs(a: string, b: string, c: string, secs: int)
    requires ':' !in a && ':' !in b && ':' !in c
    ensures ParseTime(a + ":" + b + ":" + c) == Some(secs) <==> Clock(a, b, c, secs)
  {
    hide ParseI64, SplitOn;
    SplitTime(a, b, c);
  }

  /** The second that a day from 1 to 31, a named month, a year and a time give. */
  ghost predicate Denotes(d: string, m: string, y: string, t: string, secs: int) {
    && ParseI64(d).Some? && 1 <= ParseI64(d).value <= 31 && ParseI64(y).Some? && ParseTime(t).Some?
    && exists month: int ::
         && 1 <= month <= 12 && MonthName(month) == m
         && secs == DaysFromCivil(ParseI64(y).value, month, ParseI64(d).value) * 86_400 + ParseTime(t).value
  }

  /** A date is read if and only if its fields denote a second from 1970 on that 64 bits hold. */
  lemma DateIs(d: string, m: string, y: string, t: string, rest: seq<string>, n: nat)
    ensures ParseWords([d, m, y, t] + rest) == Some(n) <==> Denotes(d, m, y, t, n) && n <= U64_MAX
  {
    hide ParseI64, ParseTime, DaysFromCivil, MonthName;
    MonthNumberIs(m, 1);
    forall month: int | 1 <= month <= 12 && MonthName(month) == m ensures MonthNumber(m, 1) == Some(month) {
      MonthRoundTrip(month, 1);
    }
    hide MonthNumber;
  }

  lemma {:induction false} MonthNumberIs(name: string, m: int)
    requires 1 <= m <= 13
    ensures MonthNumber(name, m).Some? ==>
      m <= MonthNumber(name, m).value <= 12 && MonthName(MonthNumber(name, m).value) == name
    ensures MonthNumber(name, m).None? ==> forall i :: m <= i <= 12 ==> MonthName(i) != name
    decreases 13 - m
  {
    hide MonthName;
    if m < 13 { MonthNumberIs(name, m + 1); }
  }
}
