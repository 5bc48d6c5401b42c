/** UTC timestamps of src/diag.rs: the closed-form days-to-date conversion, proved against the
    day-by-day Gregorian calendar, and the fields `format_utc` prints. */
module CivilDate {
  import opened Basics

  datatype Date = Date(year: int, month: int, day: int)

  // ---------------------------------------------------------------- the calendar

  predicate Leap(year: int) {
    year % 4 == 0 && (year % 100 != 0 || year % 400 == 0)
  }

  function MonthLength(year: int, month: int): int {
    if month == 2 then (if Leap(year) then 29 else 28)
    else if month == 4 || month == 6 || month == 9 || month == 11 then 30
    else 31
  }

  predicate ValidDate(d: Date) {
    1 <= d.month <= 12 && 1 <= d.day <= MonthLength(d.year, d.month)
  }

  function NextDay(d: Date): Date {
    if d.day < MonthLength(d.year, d.month) then Date(d.year, d.month, d.day + 1)
    else if d.month < 12 then Date(d.year, d.month + 1, 1)
    else Date(d.year + 1, 1, 1)
  }

  // ---------------------------------------------------------------- the closed form

  /** Rust's integer division, which truncates toward zero. */
  function Quotient(a: int, b: int): int
    requires b > 0
  {
    if a >= 0 then a / b else -((-a) / b)
  }

  function CivilFromDays(days: int): Date {
    var z := days + 719_468;
    var era := Quotient(if z >= 0 then z else z - 146_096, 146_097);
    var doe := z - era * 146_097;
    var yoe := Quotient(doe - Quotient(doe, 1_460) + Quotient(doe, 36_524) - Quotient(doe, 146_096), 365);
    var year := yoe + era * 400;
    var doy := doe - (365 * yoe + Quotient(yoe, 4) - Quotient(yoe, 100));
    var mp := Quotient(5 * doy + 2, 153);
    var day := doy - Quotient(153 * mp + 2, 5) + 1;
    var month := if mp < 10 then mp + 3 else mp - 9;
    Date(if month <= 2 then year + 1 else year, month, day)
  }

  // ---------------------------------------------------------------- eras, years and days of the year

  /** Days of an era before its year `y`, years starting on 1 March. */
  function YearStart(y: int): int { 365 * y + y / 4 - y / 100 }

  /** `doe` lies in year `y` of its era; only the last year of the era has the era's extra leap day. */
  predicate InYear(doe: int, y: int) {
    && 0 <= y < 400
    && YearStart(y) <= doe < YearStart(y + 1) + (if y == 399 then 1 else 0)
  }

  lemma EraIsFloor(z: int)
    ensures Quotient(if z >= 0 then z else z - 146_096, 146_097) == z / 146_097
  {
  }

  function YearOfEra(doe: int): int {
    (doe - doe / 1_460 + doe / 36_524 - doe / 146_096) / 365
  }

  /** The four-level split of a day of the era: century, four-year cycle, year and day. */
  lemma SplitDayOfEra(doe: int) returns (c: int, q: int, y: int, w: int)
    requires 0 <= doe < 146_097
    ensures doe == 36_524 * c + 1_461 * q + 365 * y + w
    ensures 0 <= c <= 3 && 0 <= q <= 24 && 0 <= y <= 3 && 0 <= w <= 365
    ensures w == 365 ==> y == 3 && (q < 24 || c == 3)
  {
    c := if doe == 146_096 then 3 else doe / 36_524;
    var r := doe - 36_524 * c;
    q := if r / 1_461 > 24 then 24 else r / 1_461;
    var s := r - 1_461 * q;
    y := if s / 365 > 3 then 3 else s / 365;
    w := s - 365 * y;
  }

  lemma ProductGrows(b: int, x: int, y: int)
    requires b > 0 && x < y
    ensures b * x + b <= b * y
  {
    assert b * (y - x - 1) >= 0;
    assert b * (y - x - 1) == b * y - b * x - b;
  }

  lemma QuotientIs(a: int, b: int, q: int)
    requires b > 0 && b * q <= a < b * q + b
    ensures a / b == q
  {
    var d := a / b;
    assert b * d <= a < b * d + b;
    if d < q { ProductGrows(b, d, q); }
    if q < d { ProductGrows(b, q, d); }
  }

  lemma YearStartFromSplit(c: int, q: int, y: int)
    requires 0 <= q <= 24 && 0 <= y <= 3
    ensures YearStart(100 * c + 4 * q + y) == 36_524 * c + 1_461 * q + 365 * y
    ensures YearStart(100 * c + 4 * q + y + 1) - YearStart(100 * c + 4 * q + y)
            == if y == 3 && q < 24 then 366 else 365
  {
    var e := 100 * c + 4 * q + y;
    QuotientIs(e, 4, 25 * c + q);
    QuotientIs(e, 100, c);
    QuotientIs(e + 1, 4, 25 * c + q + (if y == 3 then 1 else 0));
    QuotientIs(e + 1, 100, c + (if y == 3 && q == 24 then 1 else 0));
  }

  lemma YearOfEraFromSplit(doe: int, c: int, q: int, y: int, w: int)
    requires 0 <= doe < 146_097 && doe == 36_524 * c + 1_461 * q + 365 * y + w
    requires 0 <= c <= 3 && 0 <= q <= 24 && 0 <= y <= 3 && 0 <= w <= 365
    requires w == 365 ==> y == 3 && (q < 24 || c == 3)
    ensures YearOfEra(doe) == 100 * c + 4 * q + y
    ensures InYear(doe, 100 * c + 4 * q + y)
  {
    var rho := 24 * c + q + 365 * y + w;
    var carry := if rho >= 1_460 then 1 else 0;
    var last := if doe == 146_096 then 1 else 0;
    QuotientIs(doe, 1_460, 25 * c + q + carry);
    QuotientIs(doe, 36_524, c + last);
    QuotientIs(doe, 146_096, last);
    QuotientIs(doe - (25 * c + q + carry) + (c + last) - last, 365, 100 * c + 4 * q + y);
    YearStartFromSplit(c, q, y);
  }

  lemma YearOfEraIsTheYear(doe: int)
    requires 0 <= doe < 146_097
    ensures InYear(doe, YearOfEra(doe))
  {
    var c, q, y, w := SplitDayOfEra(doe);
    YearOfEraFromSplit(doe, c, q, y, w);
  }

  lemma YearStartGrows(a: int, b: int)
    requires a <= b
    ensures YearStart(a) + 365 * (b - a) - 1 <= YearStart(b)
    ensures a < b ==> YearStart(a) < YearStart(b)
  {
  }

  lemma YearIsUnique(doe: int, y: int)
    requires 0 <= doe < 146_097 && InYear(doe, y)
    ensures YearOfEra(doe) == y
  {
    var e := YearOfEra(doe);
    YearOfEraIsTheYear(doe);
    if e < y { YearStartGrows(e + 1, y); }
    if y < e { YearStartGrows(y + 1, e); }
  }

  // ---------------------------------------------------------------- months

  /** Days of a March-based year before its month `mp`, March being 0. */
  function MonthStart(mp: int): int { (153 * mp + 2) / 5 }

  function MonthOfYear(doy: int): int { (5 * doy + 2) / 153 }

  /** The date of day `doy` of the year that starts on 1 March of `year`. */
  function FromMarch(year: int, doy: int): Date {
    var mp := MonthOfYear(doy);
    var month := if mp < 10 then mp + 3 else mp - 9;
    Date(if month <= 2 then year + 1 else year, month, doy - MonthStart(mp) + 1)
  }

  function YearLength(year: int): int { if Leap(year + 1) then 366 else 365 }

  lemma MonthContainsDay(doy: int)
    requires 0 <= doy <= 365
    ensures 0 <= MonthOfYear(doy) <= 11
    ensures MonthStart(MonthOfYear(doy)) <= doy < MonthStart(MonthOfYear(doy) + 1)
  {
  }

  lemma MonthIsUnique(doy: int, mp: int)
    requires 0 <= mp <= 11 && MonthStart(mp) <= doy < MonthStart(mp + 1) && doy <= 365
    ensures MonthOfYear(doy) == mp
  {
  }

  /** The gaps between month starts are the calendar's month lengths, February being cut short. */
  lemma MonthStartsAreCalendarMonths(year: int, mp: int)
    requires 0 <= mp <= 11
    ensures var month := if mp < 10 then mp + 3 else mp - 9;
            var civil := if month <= 2 then year + 1 else year;
            MonthStart(mp) + MonthLength(civil, month) == if mp == 11 then YearLength(year) else MonthStart(mp + 1)
  {
  }

  lemma WithinYear(year: int, doy: int)
    requires 0 <= doy < YearLength(year) - 1
    ensures FromMarch(year, doy + 1) == NextDay(FromMarch(year, doy))
  {
    var mp := MonthOfYear(doy);
    MonthContainsDay(doy);
    MonthStartsAreCalendarMonths(year, mp);
    if doy + 1 < MonthStart(mp + 1) {
      MonthIsUnique(doy + 1, mp);
    } else {
      MonthContainsDay(doy + 1);
      MonthIsUnique(doy + 1, mp + 1);
    }
  }

  lemma AcrossYears(year: int)
    ensures FromMarch(year + 1, 0) == NextDay(FromMarch(year, YearLength(year) - 1))
  {
    var doy := YearLength(year) - 1;
    MonthContainsDay(doy);
    MonthIsUnique(doy, 11);
    MonthStartsAreCalendarMonths(year, 11);
    MonthIsUnique(0, 0);
  }

  // ---------------------------------------------------------------- days

  lemma RemainderShifts(a: int, b: int, k: int)
    requires b > 0
    ensures (a + b * k) % b == a % b && (a + b * k) / b == a / b + k
  {
    assert b * (a / b + k) == b * (a / b) + b * k;
    QuotientIs(a + b * k, b, a / b + k);
  }

  lemma LeapRepeats(era: int, y: int)
    ensures Leap(y + 400 * era) == Leap(y)
  {
    RemainderShifts(y, 4, 100 * era);
    RemainderShifts(y, 100, 4 * era);
    RemainderShifts(y, 400, era);
  }

  lemma QuotientAdvances(y: int, b: int)
    requires b > 0
    ensures (y + 1) / b == y / b + (if (y + 1) % b == 0 then 1 else 0)
  {
    var q := (y + 1) / b;
    if (y + 1) % b == 0 {
      assert b * (q - 1) == b * q - b;
      QuotientIs(y, b, q - 1);
    } else {
      QuotientIs(y, b, q);
    }
  }

  lemma FirstEraYearLength(y: int)
    requires 0 <= y < 400
    ensures YearStart(y + 1) + (if y == 399 then 1 else 0) - YearStart(y) == if Leap(y + 1) then 366 else 365
  {
    QuotientAdvances(y, 4);
    QuotientAdvances(y, 100);
    assert (y + 1) % 400 == 0 <==> y == 399;
  }

  lemma EraYearLength(era: int, y: int)
    requires 0 <= y < 400
    ensures YearStart(y + 1) + (if y == 399 then 1 else 0) - YearStart(y) == YearLength(y + 400 * era)
  {
    hide YearStart, Leap;
    FirstEraYearLength(y);
    LeapRepeats(era, y + 1);
    assert y + 400 * era + 1 == y + 1 + 400 * era;
  }

  lemma YearQuotientsArePlain(doe: int)
    requires 0 <= doe < 146_097
    ensures Quotient(doe - Quotient(doe, 1_460) + Quotient(doe, 36_524) - Quotient(doe, 146_096), 365) == YearOfEra(doe)
  {
  }

  lemma YearStartQuotientsArePlain(y: int)
    requires 0 <= y < 400
    ensures 365 * y + Quotient(y, 4) - Quotient(y, 100) == YearStart(y)
  {
  }

  lemma MonthQuotientsArePlain(doy: int)
    requires 0 <= doy <= 365
    ensures Quotient(5 * doy + 2, 153) == MonthOfYear(doy)
    ensures Quotient(153 * MonthOfYear(doy) + 2, 5) == MonthStart(MonthOfYear(doy))
  {
  }

  /** Day `doe` of era `era`. */
  function FromEra(era: int, doe: int): Date {
    var y := YearOfEra(doe);
    FromMarch(y + 400 * era, doe - YearStart(y))
  }

  /** The closed form, read as era and day of the era. */
  lemma ClosedFormUnfolds(days: int)
    ensures CivilFromDays(days) == FromEra((days + 719_468) / 146_097, (days + 719_468) % 146_097)
  {
    hide Quotient, MonthOfYear, MonthStart, YearOfEra, YearStart;
    var z := days + 719_468;
    var doe := z % 146_097;
    var y := YearOfEra(doe);
    EraIsFloor(z);
    YearQuotientsArePlain(doe);
    YearOfEraIsTheYear(doe);
    YearStartQuotientsArePlain(y);
    EraYearLength(0, y);
    MonthQuotientsArePlain(doe - YearStart(y));
  }

  lemma EpochIsDayZero()
    ensures CivilFromDays(0) == Date(1970, 1, 1)
  {
    assert Quotient(719_468, 146_097) == 4;
    assert Quotient(135_080, 1_460) == 92 && Quotient(135_080, 36_524) == 3 && Quotient(135_080, 146_096) == 0;
    assert Quotient(134_991, 365) == 369 && Quotient(369, 4) == 92 && Quotient(369, 100) == 3;
    assert Quotient(1_532, 153) == 10 && Quotient(1_532, 5) == 306;
    hide Quotient;
  }

  lemma WithinEra(era: int, doe: int)
    requires 0 <= doe < 146_096
    ensures FromEra(era, doe + 1) == NextDay(FromEra(era, doe))
  {
    hide MonthOfYear, MonthStart, NextDay, YearOfEra;
    var y := YearOfEra(doe);
    var doy := doe - YearStart(y);
    YearOfEraIsTheYear(doe);
    EraYearLength(era, y);
    if doy + 1 < YearLength(y + 400 * era) {
      YearIsUnique(doe + 1, y);
      WithinYear(y + 400 * era, doy);
    } else {
      AcrossYears(y + 400 * era);
      YearStartGrows(y + 1, y + 2);
      YearIsUnique(doe + 1, y + 1);
    }
  }

  lemma AcrossEras(era: int)
    ensures FromEra(era + 1, 0) == NextDay(FromEra(era, 146_096))
  {
    hide MonthOfYear, MonthStart, NextDay;
    YearIsUnique(146_096, 399);
    YearIsUnique(0, 0);
    EraYearLength(era, 399);
    AcrossYears(399 + 400 * era);
  }

  /** The conversion walks the Gregorian calendar one day at a time, over all days. */
  lemma EachDayFollowsTheLast(days: int)
    ensures CivilFromDays(days + 1) == NextDay(CivilFromDays(days))
  {
    hide *;
    var z := days + 719_468;
    var era, doe := z / 146_097, z % 146_097;
    ClosedFormUnfolds(days);
    ClosedFormUnfolds(days + 1);
    if doe < 146_096 {
      QuotientIs(z + 1, 146_097, era);
      WithinEra(era, doe);
    } else {
      QuotientIs(z + 1, 146_097, era + 1);
      AcrossEras(era);
    }
  }

  // ---------------------------------------------------------------- dates are ordered and complete

  predicate Before(a: Date, b: Date) {
    || a.year < b.year
    || (a.year == b.year && (a.month < b.month || (a.month == b.month && a.day < b.day)))
  }

  /** Later days have later dates: the conversion is strictly increasing, hence injective. */
  lemma {:induction false} DatesFollowDays(a: int, b: int)
    requires a < b
    ensures Before(CivilFromDays(a), CivilFromDays(b))
    decreases b - a
  {
    hide CivilFromDays;
    EachDayFollowsTheLast(b - 1);
    if a < b - 1 { DatesFollowDays(a, b - 1); }
  }

  /** The day number of a date, by the same March-based split. */
  function DaysFromCivil(d: Date): int {
    var year := if d.month <= 2 then d.year - 1 else d.year;
    var mp := if d.month <= 2 then d.month + 9 else d.month - 3;
    year / 400 * 146_097 + YearStart(year % 400) + MonthStart(mp) + d.day - 1 - 719_468
  }

  /** Every date of the calendar is the date of its day, so no date is ever skipped; with
      `DatesFollowDays`, dates and days correspond one to one. */
  lemma EveryDateIsReached(d: Date)
    requires ValidDate(d)
    ensures CivilFromDays(DaysFromCivil(d)) == d
  {
    hide CivilFromDays, MonthOfYear, MonthStart, YearOfEra, YearStart;
    var year := if d.month <= 2 then d.year - 1 else d.year;
    var mp := if d.month <= 2 then d.month + 9 else d.month - 3;
    var era, y := year / 400, year % 400;
    var doy := MonthStart(mp) + d.day - 1;
    DayOfYearInRange(year, mp, d.day);
    EraYearLength(era, y);
    DayOfEraInRange(y, doy);
    YearIsUnique(YearStart(y) + doy, y);
    MonthIsUnique(doy, mp);
    QuotientIs(DaysFromCivil(d) + 719_468, 146_097, era);
    ClosedFormUnfolds(DaysFromCivil(d));
  }

  lemma DayOfYearInRange(year: int, mp: int, day: int)
    requires 0 <= mp <= 11
    requires var month := if mp < 10 then mp + 3 else mp - 9;
             1 <= day <= MonthLength(if month <= 2 then year + 1 else year, month)
    ensures MonthStart(mp) <= MonthStart(mp) + day - 1 < MonthStart(mp + 1)
    ensures 0 <= MonthStart(mp) + day - 1 < YearLength(year) <= 366
  {
  }

  lemma DayOfEraInRange(y: int, doy: int)
    requires 0 <= y < 400
    requires 0 <= doy < YearStart(y + 1) - YearStart(y) + (if y == 399 then 1 else 0)
    ensures 0 <= YearStart(y) + doy < 146_097 && InYear(YearStart(y) + doy, y)
  {
    YearStartGrows(y + 1, 400);
    YearStartGrows(0, y);
  }

  // ---------------------------------------------------------------- timestamps

  /** The numbers printed by `format_utc`. */
  datatype Fields = Fields(date: Date, hour: int, minute: int, second: int, millis: int)

  /** The fields of a 64-bit millisecond timestamp. */
  function FormatUtc(unixMillis: U64): (f: Fields)
    ensures 0 <= f.hour < 24 && 0 <= f.minute < 60 && 0 <= f.second < 60 && 0 <= f.millis < 1_000
  {
    hide CivilFromDays;
    var secs := unixMillis / 1_000;
    var tod := secs % 86_400;
    Fields(CivilFromDays(secs / 86_400), tod / 3_600, (tod / 60) % 60, tod % 60, unixMillis % 1_000)
  }

  /** The clock one second on, which at midnight turns to the next day. */
  function NextSecond(f: Fields): Fields {
    if f.second < 59 then f.(second := f.second + 1)
    else if f.minute < 59 then f.(minute := f.minute + 1, second := 0)
    else if f.hour < 23 then f.(hour := f.hour + 1, minute := 0, second := 0)
    else Fields(NextDay(f.date), 0, 0, 0, f.millis)
  }

  function NextMillis(f: Fields): Fields {
    if f.millis < 999 then f.(millis := f.millis + 1) else NextSecond(f).(millis := 0)
  }

  /** A time of day has one reading. */
  lemma ClockReads(tod: int, hour: int, minute: int, second: int)
    requires 0 <= hour < 24 && 0 <= minute < 60 && 0 <= second < 60 && tod == 3_600 * hour + 60 * minute + second
    ensures tod / 3_600 == hour && (tod / 60) % 60 == minute && tod % 60 == second
  {
    QuotientIs(tod, 3_600, hour);
    QuotientIs(tod, 60, 60 * hour + minute);
    QuotientIs(60 * hour + minute, 60, hour);
  }

  lemma SecondsGoOn(secs: nat, millis: int)
    requires 0 <= millis < 1_000
    ensures var tod, tod' := secs % 86_400, (secs + 1) % 86_400;
            Fields(CivilFromDays((secs + 1) / 86_400), tod' / 3_600, (tod' / 60) % 60, tod' % 60, millis)
            == NextSecond(Fields(CivilFromDays(secs / 86_400), tod / 3_600, (tod / 60) % 60, tod % 60, millis))
  {
    hide CivilFromDays, NextDay;
    var days, tod := secs / 86_400, secs % 86_400;
    var hour, minute, second := tod / 3_600, (tod / 60) % 60, tod % 60;
    SplitTime(tod);
    ClockRanges(tod);
    if tod < 86_399 {
      QuotientIs(secs + 1, 86_400, days);
      NextReading(hour, minute, second);
    } else {
      QuotientIs(secs + 1, 86_400, days + 1);
      ClockReads(tod, 23, 59, 59);
      EachDayFollowsTheLast(days);
    }
  }

  lemma ClockRanges(tod: int)
    requires 0 <= tod < 86_400
    ensures 0 <= tod / 3_600 < 24 && 0 <= (tod / 60) % 60 < 60 && 0 <= tod % 60 < 60
  {
  }

  lemma NextReading(hour: int, minute: int, second: int)
    requires 0 <= hour < 24 && 0 <= minute < 60 && 0 <= second < 60 && 3_600 * hour + 60 * minute + second < 86_399
    ensures var tod, next := 3_600 * hour + 60 * minute + second + 1, NextSecond(Fields(Date(0, 0, 0), hour, minute, second, 0));
            tod / 3_600 == next.hour && (tod / 60) % 60 == next.minute && tod % 60 == next.second && next.date == Date(0, 0, 0)
  {
    var next := NextSecond(Fields(Date(0, 0, 0), hour, minute, second, 0));
    assert second < 59 || minute < 59 || hour < 23;
    ClockReads(3_600 * hour + 60 * minute + second + 1, next.hour, next.minute, next.second);
  }

  /** The first timestamp is midnight of 1 January 1970. */
  lemma EpochIsMidnight()
    ensures FormatUtc(0) == Fields(Date(1970, 1, 1), 0, 0, 0, 0)
  {
    hide CivilFromDays;
    EpochIsDayZero();
  }

  /** Each timestamp prints the millisecond after the one before it; with `EpochIsMidnight`, this fixes every
      field of every 64-bit timestamp. */
  lemma EachMillisFollowsTheLast(millis: U64)
    requires millis < U64_MAX
    ensures FormatUtc(millis + 1) == NextMillis(FormatUtc(millis))
  {
    hide CivilFromDays, NextSecond;
    var secs, rest := millis / 1_000, millis % 1_000;
    if rest < 999 {
      QuotientIs(millis + 1, 1_000, secs);
    } else {
      QuotientIs(millis + 1, 1_000, secs + 1);
      SecondIgnoresMillis(FormatUtc(millis), 0);
      SecondsGoOn(secs, 0);
    }
  }

  lemma SecondIgnoresMillis(f: Fields, millis: int)
    ensures NextSecond(f).(millis := millis) == NextSecond(f.(millis := millis))
  {
    hide NextDay;
  }

  predicate FieldsBefore(a: Fields, b: Fields) {
    || Before(a.date, b.date)
    || (a.date == b.date &&
        (|| a.hour < b.hour
         || (a.hour == b.hour &&
             (|| a.minute < b.minute
              || (a.minute == b.minute &&
                  (a.second < b.second || (a.second == b.second && a.millis < b.millis)))))))
  }

  /** Later timestamps print later fields, so no two timestamps print alike. */
  lemma TimestampsAreOrdered(a: U64, b: U64)
    requires a < b
    ensures FieldsBefore(FormatUtc(a), FormatUtc(b)) && FormatUtc(a) != FormatUtc(b)
  {
    hide CivilFromDays;
    var days, nextDays := a / 1_000 / 86_400, b / 1_000 / 86_400;
    if days < nextDays {
      DatesFollowDays(days, nextDays);
    } else {
      TimeOfDayOrdered(a / 1_000 % 86_400, b / 1_000 % 86_400);
    }
  }

  lemma TimeOfDayOrdered(t: int, u: int)
    requires 0 <= t < 86_400 && 0 <= u < 86_400
    ensures t < u ==> (|| t / 3_600 < u / 3_600
                       || (t / 3_600 == u / 3_600 &&
                           (|| (t / 60) % 60 < (u / 60) % 60
                            || ((t / 60) % 60 == (u / 60) % 60 && t % 60 < u % 60))))
    ensures t == u ==> t / 3_600 == u / 3_600 && (t / 60) % 60 == (u / 60) % 60 && t % 60 == u % 60
  {
    assert t == 3_600 * (t / 3_600) + 60 * ((t / 60) % 60) + t % 60 by { SplitTime(t); }
    assert u == 3_600 * (u / 3_600) + 60 * ((u / 60) % 60) + u % 60 by { SplitTime(u); }
  }

  lemma SplitTime(t: int)
    requires 0 <= t < 86_400
    ensures t == 3_600 * (t / 3_600) + 60 * ((t / 60) % 60) + t % 60
  {
    QuotientIs(t, 3_600, t / 60 / 60);
  }
}
