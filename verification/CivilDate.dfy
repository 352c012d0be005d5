/** Unix timestamps to UTC date and time: the integer-only conversion used for operator
    stamps, against the proleptic Gregorian calendar of RFC 3339. */
module CivilDate {

  const I64_MIN: int := -0x8000_0000_0000_0000
  const I64_MAX: int := 0x7fff_ffff_ffff_ffff
  const U32_MAX: int := 0xffff_ffff

  predicate IsI64(x: int) { I64_MIN <= x <= I64_MAX }
  predicate IsU32(x: int) { 0 <= x <= U32_MAX }

  /** Rust's `/` on signed integers truncates toward zero. */
  function TruncDiv(a: int, b: int): int
    requires 0 < b
  {
    if 0 <= a then a / b else -((-a) / b)
  }

  // ----- the calendar -----------------------------------------------------------

  datatype Date = Date(year: int, month: int, day: int)
  datatype Stamp = Stamp(date: Date, hour: int, minute: int, second: int)

  /** RFC 3339, Appendix C. */
  predicate Leap(y: int) {
    y % 4 == 0 && (y % 100 != 0 || y % 400 == 0)
  }

  /** RFC 3339, section 5.7. */
  function MonthLength(y: int, m: int): int {
    if m == 2 then (if Leap(y) then 29 else 28)
    else if m == 4 || m == 6 || m == 9 || m == 11 then 30
    else 31
  }

  predicate ValidDate(d: Date) {
    1 <= d.month <= 12 && 1 <= d.day <= MonthLength(d.year, d.month)
  }

  predicate ValidStamp(s: Stamp) {
    ValidDate(s.date) && 0 <= s.hour < 24 && 0 <= s.minute < 60 && 0 <= s.second < 60
  }

  function NextDay(d: Date): Date {
    if d.day < MonthLength(d.year, d.month) then d.(day := d.day + 1)
    else if d.month < 12 then Date(d.year, d.month + 1, 1)
    else Date(d.year + 1, 1, 1)
  }

  predicate DateBefore(a: Date, b: Date) {
    a.year < b.year || (a.year == b.year && (a.month < b.month || (a.month == b.month && a.day < b.day)))
  }

  function SecondOfDay(s: Stamp): int {
    3600 * s.hour + 60 * s.minute + s.second
  }

  predicate StampBefore(a: Stamp, b: Stamp) {
    DateBefore(a.date, b.date) || (a.date == b.date && SecondOfDay(a) < SecondOfDay(b))
  }

  /** Days from 1 January of year 0 to 1 January of year `y`. */
  function YearStart(y: int): int {
    365 * y + (y + 3) / 4 - (y + 99) / 100 + (y + 399) / 400
  }

  /** Days from 1 January to the first of month `m`. */
  function MonthStart(y: int, m: int): int
    decreases m
  {
    if m <= 1 then 0 else MonthStart(y, m - 1) + MonthLength(y, m - 1)
  }

  /** Days since 1970-01-01, counted by the calendar: whole years, whole months, days. */
  function DayNumber(d: Date): int {
    YearStart(d.year) - 719528 + MonthStart(d.year, d.month) + d.day - 1
  }

  function Timestamp(s: Stamp): int {
    86400 * DayNumber(s.date) + SecondOfDay(s)
  }

  // ----- the conversion ---------------------------------------------------------

  /** Every value the conversion of a day number computes on its way. */
  datatype Steps = Steps(z: int, era: int, doe: int, yoe: int, doy: int, mp: int, d: int, m: int, year: int)

  function Convert(days: int): Steps {
    var z := days + 719468;
    var era := TruncDiv(if z >= 0 then z else z - 146096, 146097);
    var doe := z - era * 146097;
    var yoe := (doe - doe / 1460 + doe / 36524 - doe / 146096) / 365;
    var y := yoe + era * 400;
    var doy := doe - (365 * yoe + yoe / 4 - yoe / 100);
    var mp := (5 * doy + 2) / 153;
    var d := doy - (153 * mp + 2) / 5 + 1;
    var m := if mp < 10 then mp + 3 else mp - 9;
    Steps(z, era, doe, yoe, doy, mp, d, m, y + if m <= 2 then 1 else 0)
  }

  function CivilFromDays(days: int): Date {
    var c := Convert(days);
    Date(c.year, c.m, c.d)
  }

  /** `unix_to_utc_parts`: `div_euclid` and `rem_euclid` are Dafny's `/` and `%`. */
  function UnixToUtcParts(ts: int): Stamp {
    var s := ts % 86400;
    Stamp(CivilFromDays(ts / 86400), s / 3600, (s % 3600) / 60, s % 60)
  }

  // ----- proofs -----------------------------------------------------------------

  /** Days of the 400-year era before year `y` of it, with years starting on 1 March. */
  function EraYearStart(y: int): int {
    365 * y + y / 4 - y / 100
  }

  lemma EraIsFloor(days: int)
    ensures Convert(days).era == (days + 719468) / 146097
    ensures 0 <= Convert(days).doe < 146097
  {
  }

  function YearOfEra(doe: int): int {
    (doe - doe / 1460 + doe / 36524 - doe / 146096) / 365
  }

  /** The year of the era that day `doe` lies in. */
  predicate InEraYear(doe: int, y: int) {
    0 <= y < 400 && EraYearStart(y) <= doe && doe < if y == 399 then 146097 else EraYearStart(y + 1)
  }

  lemma {:induction false} SomeEraYear(doe: int, top: int) returns (y: int)
    requires 0 <= doe < 146097 && 0 <= top < 400
    requires doe < if top == 399 then 146097 else EraYearStart(top + 1)
    ensures InEraYear(doe, y)
    decreases top
  {
    if EraYearStart(top) <= doe { y := top; } else { y := SomeEraYear(doe, top - 1); }
  }

  /** With the year split into centuries and four-year blocks the divisions of the formula
      count exactly the leap days before the day. */
  lemma FormulaFindsYear(doe: int, y: int)
    requires InEraYear(doe, y)
    ensures YearOfEra(doe) == y
  {
    var a, b, c := y / 4, y % 4, y / 100;
    var t := doe - EraYearStart(y);
    if y < 399 { EraYearLength(y); }
    assert doe == 1461 * a + 365 * b - c + t;
    assert y % 100 == 99 <==> b == 3 && a == 25 * c + 24;
    assert 25 * c <= a <= 25 * c + 24;
    Divisions(a, b, c, t);
    hide *;
    assert doe / 1460 - doe / 36524 + doe / 146096 == doe - 365 * y - (t - LeapShift(a, b, c, t));
    YearQuotient(doe, y, t - LeapShift(a, b, c, t));
  }

  function LeapShift(a: int, b: int, c: int, t: int): int {
    if b == 3 && t + a - c >= 365 then 1 else 0
  }

  lemma Divisions(a: int, b: int, c: int, t: int)
    requires 0 <= c <= 3 && 25 * c <= a <= 25 * c + 24 && 0 <= b <= 3
    requires 0 <= t <= if b == 3 && (a == 99 || a < 25 * c + 24) then 365 else 364
    ensures var doe := 1461 * a + 365 * b - c + t;
            && doe / 36524 - doe / 146096 == c
            && doe / 1460 == a + LeapShift(a, b, c, t)
            && 0 <= t - LeapShift(a, b, c, t) <= 364
  {
    var doe, k := 1461 * a + 365 * b - c + t, LeapShift(a, b, c, t);
    assert doe == 1460 * (a + k) + (a + 365 * b - c + t - 1460 * k);
    assert doe == 36524 * c + (1461 * (a - 25 * c) + 365 * b + t);
  }

  lemma YearQuotient(doe: int, y: int, r: int)
    requires 0 <= r <= 364 && doe - doe / 1460 + doe / 36524 - doe / 146096 == 365 * y + r
    ensures YearOfEra(doe) == y
  {
    assert (365 * y + r) / 365 == y;
  }

  lemma EraYearLength(y: int)
    requires 0 <= y < 399
    ensures EraYearStart(y + 1) - EraYearStart(y) == if y % 4 == 3 && y % 100 != 99 then 366 else 365
  {
  }

  /** Where the conversion lands: the day lies in year `yoe` of the era, and the leap year
      that ends it is the only one with a day 365. */
  lemma ConvertInRange(days: int)
    ensures var c := Convert(days);
            && c.era == (days + 719468) / 146097 && 0 <= c.doe < 146097
            && InEraYear(c.doe, c.yoe) && 0 <= c.yoe < 400 && 0 <= c.doy <= 365
            && (c.doy == 365 ==> Leap(c.yoe + 400 * c.era + 1))
  {
    var c := Convert(days);
    EraIsFloor(days);
    var y := SomeEraYear(c.doe, 399);
    FormulaFindsYear(c.doe, y);
    if y < 399 { EraYearLength(y); }
    LeapOfEra(y, c.era);
  }

  lemma LeapOfEra(yoe: int, era: int)
    requires 0 <= yoe < 400
    ensures Leap(yoe + 400 * era + 1) <==> (yoe % 4 == 3 && yoe % 100 != 99) || yoe == 399
  {
    Shift4(yoe + 1, 100 * era);
    Shift100(yoe + 1, 4 * era);
    Shift400(yoe + 1, era);
  }

  lemma Shift4(x: int, k: int)
    ensures (x + 4 * k) % 4 == x % 4 && (x + 4 * k) / 4 == x / 4 + k
  {
  }

  lemma Shift100(x: int, k: int)
    ensures (x + 100 * k) % 100 == x % 100 && (x + 100 * k) / 100 == x / 100 + k
  {
  }

  lemma Shift400(x: int, k: int)
    ensures (x + 400 * k) % 400 == x % 400 && (x + 400 * k) / 400 == x / 400 + k
  {
  }

  /** The month formula: March is 0, and every month starts where the calendar says. */
  lemma MonthOfYear(doy: int)
    requires 0 <= doy <= 365
    ensures var mp := (5 * doy + 2) / 153;
            var d := doy - (153 * mp + 2) / 5 + 1;
            0 <= mp <= 11 && 1 <= d
            && d <= (if mp == 11 then 29 else if mp == 1 || mp == 3 || mp == 6 || mp == 8 then 30 else 31)
            && (mp == 11 && d == 29 ==> doy == 365)
  {
  }

  lemma MonthStarts(y: int, mp: int)
    requires 0 <= mp <= 11
    ensures mp < 10 ==> MonthStart(y, mp + 3) == 59 + (if Leap(y) then 1 else 0) + (153 * mp + 2) / 5
    ensures mp >= 10 ==> MonthStart(y, mp - 9) == (153 * mp + 2) / 5 - 306
  {
    assert MonthStart(y, 2) == 31;
    assert MonthStart(y, 3) == 59 + if Leap(y) then 1 else 0;
    assert MonthStart(y, 4) == MonthStart(y, 3) + 31;
    assert MonthStart(y, 5) == MonthStart(y, 3) + 61;
    assert MonthStart(y, 6) == MonthStart(y, 3) + 92;
    assert MonthStart(y, 7) == MonthStart(y, 3) + 122;
    assert MonthStart(y, 8) == MonthStart(y, 3) + 153;
    assert MonthStart(y, 9) == MonthStart(y, 3) + 184;
    assert MonthStart(y, 10) == MonthStart(y, 3) + 214;
    assert MonthStart(y, 11) == MonthStart(y, 3) + 245;
    assert MonthStart(y, 12) == MonthStart(y, 3) + 275;
  }

  /** Days before March of year `y`, in both countings. */
  lemma MarchStarts(y: int)
    ensures YearStart(y) + (if Leap(y) then 1 else 0) == 365 * y + y / 4 - y / 100 + y / 400 + 1
    ensures YearStart(y + 1) == 365 * y + y / 4 - y / 100 + y / 400 + 366
  {
    assert (y + 3) / 4 == y / 4 + if y % 4 == 0 then 0 else 1;
    assert (y + 99) / 100 == y / 100 + if y % 100 == 0 then 0 else 1;
    assert (y + 399) / 400 == y / 400 + if y % 400 == 0 then 0 else 1;
    FourHundreds(y);
    Shift4(y, 1);
    Shift100(y, 1);
    Shift400(y, 1);
  }

  lemma FourHundreds(y: int)
    ensures y % 400 == 0 ==> y % 100 == 0
    ensures y % 100 == 0 ==> y % 4 == 0
  {
    var a, b := y / 100, y / 400;
    if y % 100 == 0 { assert y == 4 * (25 * a); }
    if y % 400 == 0 { assert y == 100 * (4 * b); }
  }

  lemma EraSplits(yoe: int, era: int)
    requires 0 <= yoe < 400
    ensures var y := yoe + 400 * era;
            146097 * era + EraYearStart(yoe) == 365 * y + y / 4 - y / 100 + y / 400
  {
    Shift4(yoe, 100 * era);
    Shift100(yoe, 4 * era);
    Shift400(yoe, era);
  }

  /** Every day number becomes a date of the calendar, and the calendar counts it back. */
  lemma CivilFromDaysCorrect(days: int)
    ensures ValidDate(CivilFromDays(days)) && DayNumber(CivilFromDays(days)) == days
  {
    hide *;
    var c := Convert(days);
    ConvertInRange(days);
    ConvertFields(days);
    DateOf(c.yoe + 400 * c.era, c.doy, c.mp, c.d);
    EraSplits(c.yoe, c.era);
  }

  lemma ConvertFields(days: int)
    ensures var c := Convert(days);
            && days + 719468 == 146097 * c.era + EraYearStart(c.yoe) + c.doy
            && c.mp == (5 * c.doy + 2) / 153 && c.d == c.doy - (153 * c.mp + 2) / 5 + 1
            && CivilFromDays(days) ==
                 if c.mp < 10 then Date(c.yoe + 400 * c.era, c.mp + 3, c.d)
                 else Date(c.yoe + 400 * c.era + 1, c.mp - 9, c.d)
  {
    ConvertInRange(days);
    MonthOfYear(Convert(days).doy);
    hide InEraYear, Leap;
  }

  /** Day `doy` of the year that starts in March of `y` is a date of the calendar. */
  lemma DateOf(y: int, doy: int, mp: int, d: int)
    requires 0 <= doy <= 365 && (doy == 365 ==> Leap(y + 1))
    requires mp == (5 * doy + 2) / 153 && d == doy - (153 * mp + 2) / 5 + 1
    ensures var date := if mp < 10 then Date(y, mp + 3, d) else Date(y + 1, mp - 9, d);
            && ValidDate(date)
            && DayNumber(date) == 365 * y + y / 4 - y / 100 + y / 400 + doy - 719468
  {
    MonthOfYear(doy);
    MarchStarts(y);
    MonthStarts(if mp < 10 then y else y + 1, mp);
    hide YearStart, MonthStart, Leap;
  }

  // ----- order and uniqueness ---------------------------------------------------

  lemma {:induction false} YearStartRises(a: int, b: int)
    requires a < b
    ensures YearStart(a) + 365 + (if Leap(a) then 1 else 0) <= YearStart(b)
    decreases b - a
  {
    MarchStarts(a);
    if a + 1 < b { YearStartRises(a + 1, b); }
  }

  lemma {:induction false} MonthStartRises(y: int, a: int, b: int)
    requires 1 <= a < b <= 13
    ensures MonthStart(y, a) + MonthLength(y, a) <= MonthStart(y, b)
    decreases b - a
  {
    if a < b - 1 { MonthStartRises(y, a, b - 1); }
  }

  lemma DayOfYearBound(d: Date)
    requires ValidDate(d)
    ensures 0 <= MonthStart(d.year, d.month) + d.day - 1 < 365 + if Leap(d.year) then 1 else 0
  {
    if d.month < 12 { MonthStartRises(d.year, d.month, 12); }
    MonthStarts(d.year, 9);
    if d.month > 1 { MonthStartRises(d.year, 1, d.month); }
  }

  /** Later dates have greater day numbers. */
  lemma DayNumberRises(a: Date, b: Date)
    requires ValidDate(a) && ValidDate(b) && DateBefore(a, b)
    ensures DayNumber(a) < DayNumber(b)
  {
    if a.year < b.year {
      YearStartRises(a.year, b.year);
      DayOfYearBound(a);
      DayOfYearBound(b);
    } else if a.month < b.month {
      MonthStartRises(a.year, a.month, b.month);
    }
  }

  lemma DatesCompare(a: Date, b: Date)
    ensures a == b || DateBefore(a, b) || DateBefore(b, a)
  {
  }

  /** The conversion also inverts the calendar: no other date has this number. */
  lemma CivilInvertsCalendar(d: Date)
    requires ValidDate(d)
    ensures CivilFromDays(DayNumber(d)) == d
  {
    var e := CivilFromDays(DayNumber(d));
    CivilFromDaysCorrect(DayNumber(d));
    DatesCompare(d, e);
    if DateBefore(d, e) { DayNumberRises(d, e); }
    if DateBefore(e, d) { DayNumberRises(e, d); }
  }

  /** Day zero is 1 January 1970 and each following day is the next one of the calendar. */
  lemma DaysFollowCalendar(days: int)
    ensures CivilFromDays(0) == Date(1970, 1, 1)
    ensures CivilFromDays(days + 1) == NextDay(CivilFromDays(days))
  {
    hide *;
    Epoch();
    var d := CivilFromDays(days);
    CivilFromDaysCorrect(days);
    NextDayNumber(d);
    CivilInvertsCalendar(NextDay(d));
  }

  lemma Epoch()
    ensures CivilFromDays(0) == Date(1970, 1, 1)
  {
  }

  lemma NextDayNumber(d: Date)
    requires ValidDate(d)
    ensures ValidDate(NextDay(d)) && DayNumber(NextDay(d)) == DayNumber(d) + 1
  {
    MonthStarts(d.year, 9);
    MarchStarts(d.year);
    hide YearStart, Leap;
  }

  // ----- timestamps -------------------------------------------------------------

  /** Every timestamp becomes a valid stamp that stands for exactly that timestamp. */
  lemma StampRoundTrip(ts: int)
    ensures ValidStamp(UnixToUtcParts(ts)) && Timestamp(UnixToUtcParts(ts)) == ts
  {
    hide CivilFromDays, DayNumber, ValidDate;
    CivilFromDaysCorrect(ts / 86400);
  }

  /** ... and every valid stamp comes back from its timestamp. */
  lemma StampInverse(s: Stamp)
    requires ValidStamp(s)
    ensures UnixToUtcParts(Timestamp(s)) == s
  {
    hide CivilFromDays, DayNumber, ValidDate;
    ClockSplits(DayNumber(s.date), s.hour, s.minute, s.second);
    CivilInvertsCalendar(s.date);
  }

  lemma ClockSplits(days: int, h: int, m: int, s: int)
    requires 0 <= h < 24 && 0 <= m < 60 && 0 <= s < 60
    ensures var ts := 86400 * days + (3600 * h + 60 * m + s);
            && ts / 86400 == days && (ts % 86400) / 3600 == h
            && ((ts % 86400) % 3600) / 60 == m && (ts % 86400) % 60 == s
  {
    var n := 3600 * h + 60 * m + s;
    assert (86400 * days + n) % 86400 == n;
    assert n % 3600 == 60 * m + s;
    assert n == 60 * (60 * h + m) + s;
  }

  /** Stamps are ordered as their timestamps. */
  lemma StampsIncrease(a: int, b: int)
    requires a < b
    ensures StampBefore(UnixToUtcParts(a), UnixToUtcParts(b))
  {
    hide CivilFromDays, DayNumber, ValidDate;
    var s, t := UnixToUtcParts(a), UnixToUtcParts(b);
    StampRoundTrip(a);
    StampRoundTrip(b);
    DatesCompare(s.date, t.date);
    if DateBefore(t.date, s.date) {
      DayNumberRises(t.date, s.date);
    }
  }

  // ----- machine integers -------------------------------------------------------

  /** For every i64 timestamp, no step leaves the type the source gives it: signed 64-bit up
      to the era, unsigned below (so no subtraction there goes negative), and the casts to
      u32 keep the value. */
  lemma NoOverflow(ts: int)
    requires IsI64(ts)
    ensures var c := Convert(ts / 86400);
            && IsI64(ts / 86400) && IsU32(ts % 86400)
            && IsI64(c.z) && IsI64(c.z - 146096) && IsI64(c.era) && IsI64(c.era * 146097)
            && 0 <= c.doe < 146097
            && 0 <= c.doe - c.doe / 1460
            && 0 <= c.doe - c.doe / 1460 + c.doe / 36524 - c.doe / 146096
            && 0 <= 365 * c.yoe + c.yoe / 4 - c.yoe / 100 <= c.doe
            && 0 <= c.doy - (153 * c.mp + 2) / 5
            && (c.mp >= 10 ==> 0 <= c.mp - 9)
            && IsU32(c.m) && IsU32(c.d) && IsI64(c.era * 400 + c.yoe) && IsI64(c.year)
  {
    ConvertInRange(ts / 86400);
    MonthOfYear(Convert(ts / 86400).doy);
  }

  /** `as i32` keeps the low 32 bits. */
  function WrapI32(x: int): int {
    var r := x % 0x1_0000_0000;
    if r < 0x8000_0000 then r else r - 0x1_0000_0000
  }

  /** The second copy, in the trust store, returns its year as i32. */
  function CivilFromDaysI32(days: int): Date {
    var c := Convert(days);
    Date(WrapI32(c.year), c.m, c.d)
  }

  /** The two copies agree exactly on the days whose year fits in i32. */
  lemma CopiesAgree(days: int)
    ensures CivilFromDaysI32(days) == CivilFromDays(days)
            <==> -0x8000_0000 <= CivilFromDays(days).year < 0x8000_0000
  {
    hide Convert;
    var y := CivilFromDays(days).year;
    assert 0 <= y % 0x1_0000_0000 < 0x1_0000_0000;
    if -0x8000_0000 <= y < 0 { assert y % 0x1_0000_0000 == y + 0x1_0000_0000; }
  }
}
