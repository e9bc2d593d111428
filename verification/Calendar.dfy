/**
 The proleptic Gregorian calendar: the day number of a date and the date of a day number, as the
 parser and the printer of timestamps compute them, are inverses of each other.
 */
module Calendar {
  datatype Date = Date(year: int, month: int, day: int)

  /** Division that truncates toward zero. */
  function TruncDiv(a: int, b: int): int
    requires b > 0
  {
    if a >= 0 then a / b else -((-a) / b)
  }

  predicate Leap(year: int) {
    (year % 4 == 0 && year % 100 != 0) || year % 400 == 0
  }

  function DaysInMonth(year: int, month: int): int {
    if month in {1, 3, 5, 7, 8, 10, 12} then 31
    else if month in {4, 6, 9, 11} then 30
    else if month == 2 then (if Leap(year) then 29 else 28)
    else 0
  }

  predicate ValidDate(d: Date) {
    1 <= d.month <= 12 && 1 <= d.day <= DaysInMonth(d.year, d.month)
  }

  function DaysFromCivil(d: Date): int {
    var year := d.year - if d.month <= 2 then 1 else 0;
    var era := TruncDiv(if year >= 0 then year else year - 399, 400);
    var yearOfEra := year - era * 400;
    var adjustedMonth := d.month + if d.month > 2 then -3 else 9;
    var dayOfYear := TruncDiv(153 * adjustedMonth + 2, 5) + d.day - 1;
    var dayOfEra := yearOfEra * 365 + TruncDiv(yearOfEra, 4) - TruncDiv(yearOfEra, 100) + dayOfYear;
    era * 146_097 + dayOfEra - 719_468
  }

  function YearOfEra(doe: int): int {
    TruncDiv(doe - TruncDiv(doe, 1_460) + TruncDiv(doe, 36_524) - TruncDiv(doe, 146_096), 365)
  }

  function CivilFromUnixDays(days: int): Date {
    var z := days + 719_468;
    var era := TruncDiv(if z >= 0 then z else z - 146_096, 146_097);
    var doe := z - era * 146_097;
    var yoe := YearOfEra(doe);
    var year := yoe + era * 400;
    var doy := doe - (365 * yoe + TruncDiv(yoe, 4) - TruncDiv(yoe, 100));
    var mp := TruncDiv(5 * doy + 2, 153);
    var day := doy - TruncDiv(153 * mp + 2, 5) + 1;
    var month := if mp < 10 then mp + 3 else mp - 9;
    Date(if month <= 2 then year + 1 else year, month, day)
  }

  // ---- years of an era, counted from March ----

  function YearStart(y: int): int {
    365 * y + y / 4 - y / 100
  }

  function YearLength(y: int): int {
    if Leap(y + 1) then 366 else 365
  }

  lemma NextYear(y: int)
    requires 0 <= y < 399
    ensures YearStart(y + 1) == YearStart(y) + YearLength(y)
  {
    FourYears(y);
    HundredYears(y);
    assert (y + 1) % 400 != 0;
    assert (y + 1) % 100 == 0 ==> (y + 1) % 4 == 0;
  }

  lemma FourYears(y: int)
    requires 0 <= y
    ensures (y + 1) / 4 == y / 4 + if (y + 1) % 4 == 0 then 1 else 0
  {
  }

  lemma HundredYears(y: int)
    requires 0 <= y
    ensures (y + 1) / 100 == y / 100 + if (y + 1) % 100 == 0 then 1 else 0
  {
  }

  lemma {:induction false} YearsAscend(a: int, b: int)
    requires 0 <= a < b <= 399
    ensures YearStart(a) + YearLength(a) <= YearStart(b)
    decreases b - a
  {
    NextYear(a);
    if a + 1 < b {
      YearsAscend(a + 1, b);
    }
  }

  /** The closed form finds the year a day of the era falls in. */
  lemma YearOfEraIs(doe: int)
    requires 0 <= doe < 146_097
    ensures var y := YearOfEra(doe); 0 <= y <= 399 && YearStart(y) <= doe < YearStart(y) + YearLength(y)
  {
    if doe == 146_096 {
      assert YearOfEra(146_096) == 399;
    } else {
      var c := doe / 36_524;
      CenturyOf(doe, c);
    }
  }

  lemma CenturyOf(doe: int, c: int)
    requires 0 <= doe < 146_096 && c == doe / 36_524
    ensures var y := YearOfEra(doe); 0 <= y <= 399 && YearStart(y) <= doe < YearStart(y) + YearLength(y)
  {
    var y := YearOfEra(doe);
    assert 0 <= c <= 3;
    if c == 0 { WithinCentury(doe, 0); }
    else if c == 1 { WithinCentury(doe, 1); }
    else if c == 2 { WithinCentury(doe, 2); }
    else { WithinCentury(doe, 3); }
  }

  lemma WithinCentury(doe: int, c: int)
    requires 0 <= c <= 3 && 36_524 * c <= doe < 36_524 * (c + 1) && doe < 146_096
    ensures var y := YearOfEra(doe); 100 * c <= y < 100 * (c + 1) && YearStart(y) <= doe < YearStart(y) + YearLength(y)
  {
    var y := YearOfEra(doe);
    assert doe / 36_524 == c && doe / 146_096 == 0;
    assert y == (doe - doe / 1_460 + c) / 365;
    hide YearOfEra, Leap, YearLength;
    assert 100 * c <= y < 100 * (c + 1);
    assert y / 100 == c;
    assert YearStart(y) <= doe <= YearStart(y) + 365;
    EndsBefore(doe, y, c);
  }

  lemma EndsBefore(doe: int, y: int, c: int)
    requires 0 <= c <= 3 && 36_524 * c <= doe < 36_524 * (c + 1) && doe < 146_096
    requires y == (doe - doe / 1_460 + c) / 365 && y / 100 == c && doe <= YearStart(y) + 365
    ensures doe < YearStart(y) + YearLength(y)
  {
  }

  /** And only that year. */
  lemma YearIsUnique(y: int, doe: int)
    requires 0 <= y <= 399 && YearStart(y) <= doe < YearStart(y) + YearLength(y) && 0 <= doe < 146_097
    ensures YearOfEra(doe) == y
  {
    YearOfEraIs(doe);
    var x := YearOfEra(doe);
    if x < y {
      YearsAscend(x, y);
    } else if y < x {
      YearsAscend(y, x);
    }
  }

  lemma EraEnds(y: int)
    requires 0 <= y <= 399
    ensures 0 <= YearStart(y) && YearStart(y) + YearLength(y) <= 146_097
  {
    if y < 399 {
      YearsAscend(y, 399);
    }
    assert YearStart(399) + YearLength(399) == 146_097;
  }

  // ---- months of a year, counted from March ----

  function MonthStart(mp: int): int {
    (153 * mp + 2) / 5
  }

  function MonthOf(doy: int): int {
    (5 * doy + 2) / 153
  }

  function MonthLength(mp: int): int {
    if mp in {1, 3, 6, 8} then 30 else 31
  }

  /** The day of the year lies in the month the closed form gives; February takes what is left. */
  lemma MonthOfIs(doy: int)
    requires 0 <= doy < 366
    ensures var mp := MonthOf(doy); 0 <= mp <= 11 && MonthStart(mp) <= doy && (mp < 11 ==> doy < MonthStart(mp) + MonthLength(mp))
  {
  }

  lemma MonthIsUnique(mp: int, doy: int)
    requires 0 <= mp <= 11 && MonthStart(mp) <= doy < 366 && (mp < 11 ==> doy < MonthStart(mp) + MonthLength(mp))
    ensures MonthOf(doy) == mp
  {
  }

  // ---- eras ----

  /** Truncating division with the adjustment for negative numbers is flooring division. */
  lemma EraFloors(z: int, n: int)
    requires n in {400, 146_097}
    ensures TruncDiv(if z >= 0 then z else z - (n - 1), n) == z / n
  {
  }

  function MonthNumber(mp: int): int {
    if mp < 10 then mp + 3 else mp - 9
  }

  /** A day number falls in one era, year and month. */
  lemma CivilParts(days: int, era: int, y: int, mp: int, day: int)
    requires 0 <= y <= 399 && 0 <= mp <= 11 && 1 <= day
    requires days + 719_468 == era * 146_097 + YearStart(y) + MonthStart(mp) + day - 1
    requires MonthStart(mp) + day - 1 < YearLength(y) && (mp < 11 ==> day <= MonthLength(mp))
    ensures CivilFromUnixDays(days) == Date(y + era * 400 + (if mp < 10 then 0 else 1), MonthNumber(mp), day)
  {
    var doe, doy := YearStart(y) + MonthStart(mp) + day - 1, MonthStart(mp) + day - 1;
    assert MonthStart(mp) >= 0;
    hide YearOfEra, YearStart, YearLength, MonthStart, MonthLength, MonthOf;
    EraEnds(y);
    DivMod(era, doe);
    YearIsUnique(y, doe);
    MonthIsUnique(mp, doy);
    EraFloors(days + 719_468, 146_097);
    DayOfEraIs(days, era, doe, y, doy, mp);
  }

  lemma DayOfEraIs(days: int, era: int, doe: int, y: int, doy: int, mp: int)
    requires TruncDiv(if days + 719_468 >= 0 then days + 719_468 else days + 719_468 - 146_096, 146_097) == era
    requires days + 719_468 == era * 146_097 + doe && YearOfEra(doe) == y && 0 <= y
    requires doe == YearStart(y) + doy && 0 <= doy && MonthOf(doy) == mp && 0 <= mp <= 11
    ensures CivilFromUnixDays(days) == Date(y + era * 400 + (if mp < 10 then 0 else 1), MonthNumber(mp), doy - MonthStart(mp) + 1)
  {
    hide YearOfEra;
  }

  lemma DivMod(era: int, doe: int)
    requires 0 <= doe < 146_097
    ensures (era * 146_097 + doe) / 146_097 == era
  {
  }

  lemma DaysParts(era: int, y: int, mp: int, day: int)
    requires 0 <= y <= 399 && 0 <= mp <= 11
    ensures DaysFromCivil(Date(y + era * 400 + (if mp < 10 then 0 else 1), MonthNumber(mp), day))
            == era * 146_097 + YearStart(y) + MonthStart(mp) + day - 1 - 719_468
  {
    var year := y + era * 400;
    EraFloors(year, 400);
    assert year / 400 == era;
  }

  /** The date of every day number is valid, and its day number is the one it came from. */
  lemma DaysRoundTrip(days: int)
    ensures ValidDate(CivilFromUnixDays(days))
    ensures DaysFromCivil(CivilFromUnixDays(days)) == days
  {
    var z := days + 719_468;
    var era, doe := z / 146_097, z % 146_097;
    YearOfEraIs(doe);
    var y := YearOfEra(doe);
    var doy := doe - YearStart(y);
    MonthOfIs(doy);
    var mp := MonthOf(doy);
    var day := doy - MonthStart(mp) + 1;
    hide YearOfEra;
    CivilParts(days, era, y, mp, day);
    DaysParts(era, y, mp, day);
    PartsAreValid(era, y, mp, day);
  }

  lemma PartsAreValid(era: int, y: int, mp: int, day: int)
    requires 0 <= y <= 399 && 0 <= mp <= 11 && 1 <= day
    requires MonthStart(mp) + day - 1 < YearLength(y) && (mp < 11 ==> day <= MonthLength(mp))
    ensures ValidDate(Date(y + era * 400 + (if mp < 10 then 0 else 1), MonthNumber(mp), day))
  {
    SameLeap(y + 1, era);
  }

  lemma SameLeap(year: int, era: int)
    ensures Leap(year + era * 400) <==> Leap(year)
  {
    Shift4(year, 100 * era);
    Shift100(year, 4 * era);
    Shift400(year, era);
  }

  lemma Shift4(year: int, t: int)
    ensures (year + 4 * t) % 4 == year % 4
  {
  }

  lemma Shift100(year: int, t: int)
    ensures (year + 100 * t) % 100 == year % 100
  {
  }

  lemma Shift400(year: int, t: int)
    ensures (year + 400 * t) % 400 == year % 400
  {
  }

  /** The day number of every valid date gives the date back. */
  lemma DateRoundTrip(d: Date)
    requires ValidDate(d)
    ensures CivilFromUnixDays(DaysFromCivil(d)) == d
  {
    var year := d.year - if d.month <= 2 then 1 else 0;
    var era, y := year / 400, year % 400;
    var mp := if d.month > 2 then d.month - 3 else d.month + 9;
    SameLeap(y + 1, era);
    assert year == y + era * 400;
    ValidIsWithinParts(d, y, era, mp);
    DaysParts(era, y, mp, d.day);
    CivilParts(DaysFromCivil(d), era, y, mp, d.day);
  }

  lemma ValidIsWithinParts(d: Date, y: int, era: int, mp: int)
    requires ValidDate(d) && 0 <= y <= 399 && mp == (if d.month > 2 then d.month - 3 else d.month + 9)
    requires d.year == y + era * 400 + (if mp < 10 then 0 else 1)
    requires Leap(y + 1 + era * 400) <==> Leap(y + 1)
    ensures MonthStart(mp) + d.day - 1 < YearLength(y) && (mp < 11 ==> d.day <= MonthLength(mp))
    ensures d.month == MonthNumber(mp)
  {
  }

  // ---- counting days ----

  /** The day after, by the lengths of the months and the leap years of the Gregorian calendar. */
  function DayAfter(d: Date): Date {
    var last := if d.month == 2 then (if d.year % 4 == 0 && (d.year % 100 != 0 || d.year % 400 == 0) then 29 else 28)
                else if d.month == 4 || d.month == 6 || d.month == 9 || d.month == 11 then 30 else 31;
    if d.day < last then Date(d.year, d.month, d.day + 1)
    else if d.month < 12 then Date(d.year, d.month + 1, 1)
    else Date(d.year + 1, 1, 1)
  }

  /** The date at a place of an era: its year and month counted from March. */
  function DateAt(era: int, y: int, mp: int, day: int): Date {
    Date(y + era * 400 + (if mp < 10 then 0 else 1), MonthNumber(mp), day)
  }

  function DaysOfMonth(y: int, mp: int): int {
    if mp < 11 then MonthLength(mp) else if Leap(y + 1) then 29 else 28
  }

  lemma PlaceOf(d: Date) returns (era: int, y: int, mp: int)
    requires ValidDate(d)
    ensures 0 <= y <= 399 && 0 <= mp <= 11 && d == DateAt(era, y, mp, d.day) && 1 <= d.day <= DaysOfMonth(y, mp)
  {
    var year := d.year - if d.month <= 2 then 1 else 0;
    era, y := year / 400, year % 400;
    mp := if d.month > 2 then d.month - 3 else d.month + 9;
    assert year == y + era * 400;
    SameLeap(y + 1, era);
    assert d.month <= 2 ==> d.year == y + 1 + era * 400;
    hide Leap;
  }

  lemma AfterPlace(era: int, y: int, mp: int, day: int)
    requires 0 <= y <= 399 && 0 <= mp <= 11 && 1 <= day <= DaysOfMonth(y, mp)
    ensures DayAfter(DateAt(era, y, mp, day))
            == if day < DaysOfMonth(y, mp) then DateAt(era, y, mp, day + 1)
               else if mp < 11 then DateAt(era, y, mp + 1, 1)
               else if y < 399 then DateAt(era, y + 1, 0, 1) else DateAt(era + 1, 0, 0, 1)
  {
    SameLeap(y + 1, era);
    assert Leap(y + 1 + era * 400) <==> Leap(y + 1);
    LeapMeans(y + 1 + era * 400);
    hide Leap;
  }

  lemma LeapMeans(year: int)
    ensures Leap(year) <==> year % 4 == 0 && (year % 100 != 0 || year % 400 == 0)
  {
    if year % 400 == 0 {
      Shift4(0, 100 * (year / 400));
      assert year == 0 + 4 * (100 * (year / 400));
    }
  }

  lemma PlaceIsValid(era: int, y: int, mp: int, day: int)
    requires 0 <= y <= 399 && 0 <= mp <= 11 && 1 <= day <= DaysOfMonth(y, mp)
    ensures ValidDate(DateAt(era, y, mp, day))
  {
    SameLeap(y + 1, era);
    hide Leap;
  }

  /** How far apart the starts of months, years and eras are. */
  lemma StartsFollow(y: int, mp: int)
    requires 0 <= y <= 399 && 0 <= mp <= 11
    ensures mp < 11 ==> MonthStart(mp + 1) == MonthStart(mp) + DaysOfMonth(y, mp)
    ensures mp == 11 ==> (if y < 399 then YearStart(y + 1) else 146_097 + YearStart(0)) == YearStart(y) + MonthStart(mp) + DaysOfMonth(y, mp)
    ensures MonthStart(0) == 0
  {
    if y < 399 {
      NextYear(y);
    } else {
      assert YearStart(399) + YearLength(399) == 146_097;
    }
    hide Leap, YearStart;
  }

  lemma CountAfter(era: int, y: int, mp: int, day: int)
    requires 0 <= y <= 399 && 0 <= mp <= 11 && 1 <= day <= DaysOfMonth(y, mp)
    ensures ValidDate(DayAfter(DateAt(era, y, mp, day)))
    ensures DaysFromCivil(DayAfter(DateAt(era, y, mp, day))) == DaysFromCivil(DateAt(era, y, mp, day)) + 1
  {
    hide DaysFromCivil, ValidDate, DayAfter, DateAt, YearStart, MonthStart, Leap;
    AfterPlace(era, y, mp, day);
    StartsFollow(y, mp);
    DaysAt(era, y, mp, day);
    if day < DaysOfMonth(y, mp) {
      DaysAt(era, y, mp, day + 1);
    } else if mp < 11 {
      DaysAt(era, y, mp + 1, 1);
    } else if y < 399 {
      DaysAt(era, y + 1, 0, 1);
    } else {
      DaysAt(era + 1, 0, 0, 1);
    }
  }

  lemma DaysAt(era: int, y: int, mp: int, day: int)
    requires 0 <= y <= 399 && 0 <= mp <= 11 && 1 <= day <= DaysOfMonth(y, mp)
    ensures DaysFromCivil(DateAt(era, y, mp, day)) == era * 146_097 + YearStart(y) + MonthStart(mp) + day - 1 - 719_468
    ensures ValidDate(DateAt(era, y, mp, day))
  {
    hide DaysFromCivil, ValidDate, DaysOfMonth, YearStart, MonthStart;
    DaysParts(era, y, mp, day);
    PlaceIsValid(era, y, mp, day);
  }

  /** Day numbers count days: the first of January 1970 is day 0 and every day is one more than the last. */
  lemma DaysCount(d: Date)
    requires ValidDate(d)
    ensures ValidDate(DayAfter(d)) && DaysFromCivil(DayAfter(d)) == DaysFromCivil(d) + 1
    ensures DaysFromCivil(Date(1970, 1, 1)) == 0
  {
    assert DaysFromCivil(Date(1970, 1, 1)) == 0;
    hide *;
    var era, y, mp := PlaceOf(d);
    CountAfter(era, y, mp, d.day);
  }
}
