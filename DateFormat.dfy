/**
 * `DomainListItem.prototype.formatDate`: a millisecond timestamp rendered as
 * `YY/MM/DD HH:MM` from its UTC calendar fields, with the month counted from 0.
 * The calendar arithmetic is proleptic Gregorian on whole days, as in section
 * 21.4.1 (Time Values and Time Range, Day Number and Time within Day, Year Number,
 * Month Number, Date Number, Hours, Minutes) of ECMAScript 2023.
 */
module DateFormat {
  import opened Strings

  const MsPerMinute := 60_000
  const MsPerHour := 3_600_000
  const MsPerDay := 86_400_000
  /** The largest magnitude a valid `Date` time value may have. */
  const MaxTimeValue := 8_640_000_000_000_000

  /** Year, month (1 to 12) and day of month of a proleptic Gregorian date. */
  datatype CivilDate = CivilDate(year: int, month: int, day: int)

  /** Days from 1970-01-01 to the given date. */
  function DaysFromCivil(date: CivilDate): int
  {
    var y := if date.month <= 2 then date.year - 1 else date.year;
    var era := y / 400;
    var yoe := y - era * 400;
    var mp := if date.month > 2 then date.month - 3 else date.month + 9;
    var doy := (153 * mp + 2) / 5 + date.day - 1;
    var doe := YearStart(yoe) + doy;
    era * 146097 + doe - 719468
  }

  /** ECMAScript's DayFromYear: the day number of the first day of year `y`. */
  function DayFromYear(y: int): int
  {
    365 * (y - 1970) + (y - 1969) / 4 - (y - 1901) / 100 + (y - 1601) / 400
  }

  predicate IsLeapYear(y: int)
  {
    y % 4 == 0 && (y % 100 != 0 || y % 400 == 0)
  }

  function DaysInMonth(y: int, m: int): int
    requires 1 <= m <= 12
  {
    if m == 2 then (if IsLeapYear(y) then 29 else 28)
    else if m == 4 || m == 6 || m == 9 || m == 11 then 30
    else 31
  }

  /** First day, counted from 1 March of year 0 of its era, of March-based year `yoe` of an era. */
  function YearStart(yoe: int): int
  {
    365 * yoe + yoe / 4 - yoe / 100
  }

  /**
   * Splits a day of a 400-year era into its March-based year of era and day of
   * that year: three full centuries of 36524 days (the fourth has 36525), 4-year
   * cycles of 1461 days, and years of 365 days (the fourth of a cycle has 366).
   */
  function SplitEraDay(doe: int): (r: (int, int))
    requires 0 <= doe <= 146096
    ensures 0 <= r.0 <= 399 && 0 <= r.1 <= 365
    ensures YearStart(r.0) + r.1 == doe
    ensures r.1 == 365 ==> (r.0 + 1) % 4 == 0 && ((r.0 + 1) % 100 != 0 || r.0 == 399)
  {
    var n100 := if doe / 36524 < 3 then doe / 36524 else 3;
    var r1 := doe - 36524 * n100;
    var n4 := r1 / 1461;
    var r2 := r1 - 1461 * n4;
    var n1 := if r2 / 365 < 3 then r2 / 365 else 3;
    assert 0 <= n4 <= 24 && 0 <= n1 <= 3;
    var yoe := 100 * n100 + 4 * n4 + n1;
    assert yoe / 4 == 25 * n100 + n4;
    assert yoe / 100 == n100;
    (yoe, r2 - 365 * n1)
  }

  /** Month number of the March-based month `mp` (0 is March, 11 is February). */
  function MonthOf(mp: int): int
  {
    if mp < 10 then mp + 3 else mp - 9
  }

  /** Day of a March-based year split into March-based month and day of month. */
  function SplitYearDay(doy: int): (r: (int, int))
    requires 0 <= doy <= 365
    ensures 0 <= r.0 <= 11 && 1 <= r.1
    ensures (153 * r.0 + 2) / 5 + r.1 - 1 == doy
    ensures r.1 <= DaysInMonth(1, MonthOf(r.0)) || (r.0 == 11 && r.1 == 29 && doy == 365)
  {
    var mp := (5 * doy + 2) / 153;
    (mp, doy - (153 * mp + 2) / 5 + 1)
  }

  /** Adding a multiple `d * k` does not change the remainder by a divisor `d` of 400. */
  lemma ShiftRemainder(a: int, k: int, d: int)
    requires d == 4 || d == 100 || d == 400
    ensures (a + k * d) % d == a % d
  {
    var q, r := a / d, a % d;
    var b := a + k * d;
    var q', r' := b / d, b % d;
    assert d * (q' - q - k) == r - r';
  }

  /** Whole eras of 400 years do not change a year's remainders by 4, 100 and 400. */
  lemma ShiftByEras(a: int, k: int)
    ensures (a + k * 400) % 4 == a % 4
    ensures (a + k * 400) % 100 == a % 100
    ensures (a + k * 400) % 400 == a % 400
  {
    ShiftRemainder(a, 100 * k, 4);
    ShiftRemainder(a, 4 * k, 100);
    ShiftRemainder(a, k, 400);
  }

  lemma LeapYearOfEra(yoe: int, era: int)
    requires 0 <= yoe <= 399
    requires (yoe + 1) % 4 == 0 && ((yoe + 1) % 100 != 0 || yoe == 399)
    ensures IsLeapYear(yoe + era * 400 + 1)
  {
    ShiftByEras(yoe + 1, era);
    assert yoe + era * 400 + 1 == yoe + 1 + era * 400;
  }

  /** The calendar date of day number `z` (days since 1970-01-01). */
  function CivilFromDays(z: int): (date: CivilDate)
    ensures 1 <= date.month <= 12 && 1 <= date.day <= DaysInMonth(date.year, date.month)
    ensures DaysFromCivil(date) == z
  {
    var z' := z + 719468;
    var era := z' / 146097;
    var doe := z' - era * 146097;
    var (yoe, doy) := SplitEraDay(doe);
    var (mp, d) := SplitYearDay(doy);
    var m := MonthOf(mp);
    var y := yoe + era * 400;
    assert y / 400 == era;
    assert era * 146097 + doe - 719468 == z;
    if doy == 365 then
      LeapYearOfEra(yoe, era);
      CivilDate(y + 1, m, d)
    else
      CivilDate(if m <= 2 then y + 1 else y, m, d)
  }

  /** The first of January of each year falls on ECMAScript's DayFromYear. */
  lemma NewYearIsDayFromYear(y: int)
    ensures DaysFromCivil(CivilDate(y, 1, 1)) == DayFromYear(y)
  {
    var era := (y - 1) / 400;
    var yoe := y - 1 - era * 400;
    assert (y - 1969) / 4 == 100 * era - 492 + yoe / 4;
    assert (y - 1901) / 100 == 4 * era - 19 + yoe / 100;
    assert (y - 1601) / 400 == era - 4;
  }

  /** Each month is followed, `DaysInMonth` days later, by the first of the next one. */
  lemma MonthLength(y: int, m: int)
    requires 1 <= m <= 12
    ensures DaysFromCivil(CivilDate(y, m, 1)) + DaysInMonth(y, m)
         == if m == 12 then DaysFromCivil(CivilDate(y + 1, 1, 1)) else DaysFromCivil(CivilDate(y, m + 1, 1))
  {
    if m == 2 {
      FebruaryLength(y);
    } else {
      OtherMonthLength(y, m);
    }
  }

  lemma FebruaryLength(y: int)
    ensures DaysFromCivil(CivilDate(y, 2, 1)) + DaysInMonth(y, 2) == DaysFromCivil(CivilDate(y, 3, 1))
  {
    MarchYearLength(y - 1);
    assert DaysFromCivil(CivilDate(y, 2, 1)) == MarchFirst(y - 1) + 31;
    assert DaysFromCivil(CivilDate(y, 3, 1)) == MarchFirst(y) - 306;
  }

  /** Months other than February lie within one March-based year, whose start cancels out. */
  lemma OtherMonthLength(y: int, m: int)
    requires 1 <= m <= 12 && m != 2
    ensures DaysFromCivil(CivilDate(y, m, 1)) + DaysInMonth(y, m)
         == if m == 12 then DaysFromCivil(CivilDate(y + 1, 1, 1)) else DaysFromCivil(CivilDate(y, m + 1, 1))
  {
    var next := if m == 12 then CivilDate(y + 1, 1, 1) else CivilDate(y, m + 1, 1);
    var yy := if m <= 2 then y - 1 else y;
    var mp := if m > 2 then m - 3 else m + 9;
    var base := (yy / 400) * 146097 + YearStart(yy - (yy / 400) * 400) - 719468;
    assert DaysFromCivil(CivilDate(y, m, 1)) == base + (153 * mp + 2) / 5;
    assert DaysFromCivil(next) == base + (153 * (mp + 1) + 2) / 5;
    MonthSpan(mp);
  }

  /** Days between the first of March-based month `mp` and the first of the next, for March to January. */
  lemma MonthSpan(mp: int)
    requires 0 <= mp <= 10
    ensures (153 * (mp + 1) + 2) / 5 - (153 * mp + 2) / 5 == if mp == 1 || mp == 3 || mp == 6 || mp == 8 then 30 else 31
  {
  }

  /** Day number of 1 January of year `y + 1`, 306 days into the March-based year `y`. */
  function MarchFirst(y: int): int
  {
    (y / 400) * 146097 + YearStart(y - (y / 400) * 400) + 306 - 719468
  }

  /** Consecutive years of one era start a common or a leap year apart. */
  lemma YearStartStep(yoe: int)
    requires 0 <= yoe < 399
    ensures YearStart(yoe + 1) - YearStart(yoe)
         == if (yoe + 1) % 4 == 0 && (yoe + 1) % 100 != 0 then 366 else 365
  {
    var q, r := yoe / 4, yoe % 4;
    var c, t := yoe / 100, yoe % 100;
    assert (yoe + 1) / 4 == if r == 3 then q + 1 else q;
    assert (yoe + 1) / 100 == if t == 99 then c + 1 else c;
    assert (yoe + 1) % 4 == 0 <==> r == 3;
    assert (yoe + 1) % 100 == 0 <==> t == 99;
    assert t == 99 ==> r == 3;
  }

  lemma LeapYearInEra(y: int, era: int, yoe: int)
    requires y == era * 400 + yoe && 0 <= yoe < 399
    ensures IsLeapYear(y + 1) <==> (yoe + 1) % 4 == 0 && (yoe + 1) % 100 != 0
  {
    ShiftByEras(yoe + 1, era);
    assert y + 1 == yoe + 1 + era * 400;
    assert (yoe + 1) % 400 == yoe + 1;
  }

  /** A March-based year is one day longer exactly when the February that ends it is a leap February. */
  lemma MarchYearLength(y: int)
    ensures MarchFirst(y + 1) - MarchFirst(y) == if IsLeapYear(y + 1) then 366 else 365
  {
    var era := y / 400;
    var yoe := y - era * 400;
    if yoe == 399 {
      assert (y + 1) / 400 == era + 1;
      assert y + 1 == 400 * (era + 1);
    } else {
      assert (y + 1) / 400 == era;
      YearStartStep(yoe);
      LeapYearInEra(y, era, yoe);
    }
  }

  /** The UTC calendar fields `formatDate` reads from a `Date`: the civil date, hours and minutes. */
  datatype UtcFields = UtcFields(date: CivilDate, hours: int, minutes: int)

  /**
   * The UTC fields of time value `t`: the day is `floor(t / msPerDay)`, and the
   * fields name the minute that contains `t`.
   */
  function UtcFieldsOf(t: int): (f: UtcFields)
    ensures 1 <= f.date.month <= 12 && 1 <= f.date.day <= DaysInMonth(f.date.year, f.date.month)
    ensures 0 <= f.hours < 24 && 0 <= f.minutes < 60
    ensures var start := DaysFromCivil(f.date) * MsPerDay + f.hours * MsPerHour + f.minutes * MsPerMinute;
            start <= t < start + MsPerMinute
  {
    var ms := t % MsPerDay;
    SplitTime(t);
    UtcFields(CivilFromDays(t / MsPerDay), ms / MsPerHour, (ms / MsPerMinute) % 60)
  }

  /** Quotient and remainder by 60 or by a minute's milliseconds: `a == q * b + r` with `0 <= r < b` fixes both. */
  lemma DivModUnique(a: int, b: int, q: int, r: int)
    requires b == 60 || b == MsPerMinute
    requires a == q * b + r && 0 <= r < b
    ensures a / b == q && a % b == r
  {
    var q', r' := a / b, a % b;
    assert b * (q' - q) == r - r';
  }

  /** The hour and minute of a time value within its day, and the milliseconds they leave over. */
  lemma SplitTime(t: int)
    ensures var ms := t % MsPerDay;
            var h, mi := ms / MsPerHour, (ms / MsPerMinute) % 60;
            && 0 <= h < 24 && 0 <= mi < 60
            && (t / MsPerDay) * MsPerDay + h * MsPerHour + mi * MsPerMinute <= t
            && t < (t / MsPerDay) * MsPerDay + h * MsPerHour + mi * MsPerMinute + MsPerMinute
  {
    var d, ms := t / MsPerDay, t % MsPerDay;
    var h, r := ms / MsPerHour, ms % MsPerHour;
    var mi, rest := r / MsPerMinute, r % MsPerMinute;
    assert ms == h * MsPerHour + r;
    assert r == mi * MsPerMinute + rest;
    assert 0 <= h < 24 && 0 <= mi < 60;
    assert ms == (h * 60 + mi) * MsPerMinute + rest;
    DivModUnique(ms, MsPerMinute, h * 60 + mi, rest);
    DivModUnique(h * 60 + mi, 60, h, mi);
  }

  const StillChecking := "Still Checking"
  /** What each field of an invalid `Date` prints as. */
  const InvalidDateText := "NaN/NaN/NaN NaN:NaN"

  /**
   * `formatDate(timestamp)`: 0 means the check has not run yet; a time value
   * outside the `Date` range gives an invalid date, every field of which
   * prints as `NaN`; otherwise the two-digit-padded UTC fields, the year less
   * 2000 and the month counted from 0.
   */
  function FormatDate(timestamp: int): string
  {
    if timestamp == 0 then StillChecking
    else if timestamp < -MaxTimeValue || MaxTimeValue < timestamp then InvalidDateText
    else Render(UtcFieldsOf(timestamp))
  }

  /** The fields as `formatDate` joins them: `YY/MM/DD HH:MM`, each padded to two characters. */
  function Render(f: UtcFields): string
    requires 1 <= f.date.month && 1 <= f.date.day && 0 <= f.hours && 0 <= f.minutes
  {
    Join(PadStart2(IntToString(f.date.year - 2000)), PadStart2(NatToString(f.date.month - 1)),
         PadStart2(NatToString(f.date.day)), PadStart2(NatToString(f.hours)), PadStart2(NatToString(f.minutes)))
  }

  function Join(y: string, mo: string, d: string, h: string, mi: string): string
  {
    y + "/" + mo + "/" + d + " " + h + ":" + mi
  }

  lemma {:induction false} ParseNatLeadingZero(s: string)
    requires AllDigits(s)
    ensures AllDigits("0" + s) && ParseNat("0" + s) == ParseNat(s)
  {
    if s != [] {
      assert ("0" + s)[..|s|] == "0" + s[..|s| - 1];
      ParseNatLeadingZero(s[..|s| - 1]);
    }
  }

  /** A field below 100 prints as exactly two digits that read back as the field. */
  lemma TwoDigitField(v: nat)
    requires v < 100
    ensures |PadStart2(NatToString(v))| == 2 && ReadsAs(PadStart2(NatToString(v)), v)
  {
    NatToStringRoundTrip(v);
    if v < 10 {
      ParseNatLeadingZero(NatToString(v));
    } else {
      assert |NatToString(v / 10)| == 1;
    }
  }

  /** The year part of the text reads back as the year less 2000, sign included. */
  lemma YearField(y: int)
    ensures var text := PadStart2(IntToString(y - 2000));
            && |text| >= 2
            && (y >= 2000 ==> ReadsAs(text, y - 2000))
            && (y < 2000 ==> text[0] == '-' && ReadsAs(text[1..], 2000 - y))
  {
    var s := IntToString(y - 2000);
    if y >= 2000 && |s| == 1 {
      ParseNatLeadingZero(s);
    }
  }

  /**
   * `text` is `<year - 2000>/MM/DD HH:MM` for the fields `f`: each field reads
   * back as the field, the month as its zero-based number.
   */
  ghost predicate ShowsFields(text: string, f: UtcFields)
  {
    var n := |text|;
    && n >= 14
    && text[n - 12] == '/' && text[n - 9] == '/' && text[n - 6] == ' ' && text[n - 3] == ':'
    && ReadsAs(text[n - 11..n - 9], f.date.month - 1)
    && ReadsAs(text[n - 8..n - 6], f.date.day)
    && ReadsAs(text[n - 5..n - 3], f.hours)
    && ReadsAs(text[n - 2..], f.minutes)
    && (f.date.year >= 2000 ==> ReadsAs(text[..n - 12], f.date.year - 2000))
    && (f.date.year < 2000 ==> text[0] == '-' && ReadsAs(text[1..n - 12], 2000 - f.date.year))
  }

  /** Every timestamp other than 0 in the `Date` range prints its own UTC fields. */
  lemma FormatDateReadsBack(timestamp: int)
    requires timestamp != 0 && -MaxTimeValue <= timestamp <= MaxTimeValue
    ensures ShowsFields(FormatDate(timestamp), UtcFieldsOf(timestamp))
  {
    RenderReadsBack(UtcFieldsOf(timestamp));
  }

  lemma RenderReadsBack(f: UtcFields)
    requires 1 <= f.date.month <= 12 && 1 <= f.date.day <= 31 && 0 <= f.hours < 24 && 0 <= f.minutes < 60
    ensures ShowsFields(Render(f), f)
  {
    var y, mo, d := PadStart2(IntToString(f.date.year - 2000)), PadStart2(NatToString(f.date.month - 1)),
                    PadStart2(NatToString(f.date.day));
    var h, mi := PadStart2(NatToString(f.hours)), PadStart2(NatToString(f.minutes));
    assert Render(f) == Join(y, mo, d, h, mi);
    YearField(f.date.year);
    TwoDigitField(f.date.month - 1);
    TwoDigitField(f.date.day);
    TwoDigitField(f.hours);
    TwoDigitField(f.minutes);
    Layout(y, mo, d, h, mi, f);
  }

  /** Where the pieces of `y/mo/d h:mi` sit, and what they read as, when all but the first have two digits. */
  lemma Layout(y: string, mo: string, d: string, h: string, mi: string, f: UtcFields)
    requires |mo| == |d| == |h| == |mi| == 2 && |y| >= 2
    requires ReadsAs(mo, f.date.month - 1) && ReadsAs(d, f.date.day) && ReadsAs(h, f.hours) && ReadsAs(mi, f.minutes)
    requires f.date.year >= 2000 ==> ReadsAs(y, f.date.year - 2000)
    requires f.date.year < 2000 ==> y[0] == '-' && ReadsAs(y[1..], 2000 - f.date.year)
    ensures ShowsFields(Join(y, mo, d, h, mi), f)
  {
    var text := Join(y, mo, d, h, mi);
    var n := |text|;
    assert text[..n - 12] == y && text[1..n - 12] == y[1..];
    assert text[n - 11..n - 9] == mo && text[n - 8..n - 6] == d && text[n - 5..n - 3] == h && text[n - 2..] == mi;
  }
}
