/**
 Model of `civil_from_days` (crates/kproxy/src/output.rs): the closed-form conversion of a day
 number, counted from 1970-01-01, to a Gregorian date. Dafny's division is the source's
 `div_euclid`; every other division there has a non-negative dividend.
 */
module CivilDate {

  datatype Date = Date(year: int, month: int, day: int)

  /** The source's expression, step by step. */
  function CivilFromDays(days: int): Date {
    var adjusted := days + 719468;
    var era := adjusted / 146097;
    var dayOfEra := adjusted % 146097;
    var yearOfEra := YearOfEra(dayOfEra);
    var dayOfYear := dayOfEra - (365 * yearOfEra + yearOfEra / 4 - yearOfEra / 100);
    var monthPrime := (5 * dayOfYear + 2) / 153;
    var day := dayOfYear - (153 * monthPrime + 2) / 5 + 1;
    var month := if monthPrime < 10 then monthPrime + 3 else monthPrime - 9;
    var year := yearOfEra + era * 400;
    Date(if month <= 2 then year + 1 else year, month, day)
  }

  function YearOfEra(dayOfEra: int): int {
    (dayOfEra - dayOfEra / 1460 + dayOfEra / 36524 - dayOfEra / 146096) / 365
  }

  // ---------------------------------------------------------------- the calendar

  predicate IsLeap(year: int) {
    year % 4 == 0 && (year % 100 != 0 || year % 400 == 0)
  }

  function DaysInMonth(year: int, month: int): int {
    if month == 2 then (if IsLeap(year) then 29 else 28)
    else if month == 4 || month == 6 || month == 9 || month == 11 then 30
    else 31
  }

  predicate IsDate(d: Date) {
    1 <= d.month <= 12 && 1 <= d.day <= DaysInMonth(d.year, d.month)
  }

  /** The date after `d`. */
  function NextDate(d: Date): Date {
    if d.day < DaysInMonth(d.year, d.month) then d.(day := d.day + 1)
    else if d.month < 12 then Date(d.year, d.month + 1, 1)
    else Date(d.year + 1, 1, 1)
  }

  // ---------------------------------------------------------------- days counted through the calendar

  /**
   A day placed by eras of 400 years, centuries, four-year groups, years and days, all counted
   from 1 March. `leap` below is whether the February that ends the year has 29 days.
   */
  datatype Place = Place(era: int, century: int, group: int, year: int, day: int)

  predicate EndsLeap(p: Place) {
    p.year == 3 && (p.group != 24 || p.century == 3)
  }

  predicate IsPlace(p: Place) {
    && 0 <= p.century <= 3 && 0 <= p.group <= 24 && 0 <= p.year <= 3
    && 0 <= p.day <= (if EndsLeap(p) then 365 else 364)
  }

  function YearOf(p: Place): int {
    400 * p.era + 100 * p.century + 4 * p.group + p.year
  }

  function DayNumber(p: Place): int {
    146097 * p.era + 36524 * p.century + 1461 * p.group + 365 * p.year + p.day - 719468
  }

  function PlaceOf(days: int): (p: Place)
    ensures IsPlace(p) && DayNumber(p) == days
  {
    var adjusted := days + 719468;
    var era, inEra := adjusted / 146097, adjusted % 146097;
    var century := if inEra / 36524 > 3 then 3 else inEra / 36524;
    var inCentury := inEra - 36524 * century;
    var group := inCentury / 1461;
    var inGroup := inCentury - 1461 * group;
    var year := if inGroup / 365 > 3 then 3 else inGroup / 365;
    Place(era, century, group, year, inGroup - 365 * year)
  }

  /** The month and the day in it, for a day of a year that starts on 1 March. */
  function MonthPrime(day: int): int {
    (5 * day + 2) / 153
  }

  function DateOf(p: Place): Date {
    var m := MonthPrime(p.day);
    var month := if m < 10 then m + 3 else m - 9;
    Date(if month <= 2 then YearOf(p) + 1 else YearOf(p), month, p.day - (153 * m + 2) / 5 + 1)
  }

  /** The corrections in `YearOfEra` amount to the calendar's own grouping of years. */
  lemma {:induction false} YearOfEraOfPlace(p: Place)
    requires IsPlace(p) && p.era == 0
    ensures YearOfEra(DayNumber(p) + 719468) == YearOf(p)
  {
    var doe := DayNumber(p) + 719468;
    var over := 24 * p.century + p.group + 365 * p.year + p.day;
    var t := if over >= 1460 then 1 else 0;
    assert doe == 1460 * (25 * p.century + p.group) + over;
    assert doe / 1460 == 25 * p.century + p.group + t;
    assert doe / 36524 - doe / 146096 == p.century by { CenturyOfPlace(p); }
    assert 0 <= p.day - t <= 364;
    assert doe - doe / 1460 + p.century == 365 * YearOf(p) + (p.day - t);
  }

  lemma {:induction false} CenturyOfPlace(p: Place)
    requires IsPlace(p) && p.era == 0
    ensures var doe := DayNumber(p) + 719468;
            doe / 36524 - doe / 146096 == p.century
  {
    var doe := DayNumber(p) + 719468;
    var rest := 1461 * p.group + 365 * p.year + p.day;
    assert doe == 36524 * p.century + rest && 0 <= rest <= 36524;
    if rest < 36524 {
      assert doe / 36524 == p.century && doe / 146096 == 0;
    } else {
      assert p.century == 3 && doe == 146096;
    }
  }

  /** The closed form computes the date of the day's place in the calendar. */
  lemma {:induction false} ClosedFormIsPlaceDate(days: int)
    ensures CivilFromDays(days) == DateOf(PlaceOf(days))
  {
    hide PlaceOf, YearOfEra;
    var p := PlaceOf(days);
    var inEra := p.(era := 0);
    YearOfEraOfPlace(inEra);
    var doe := DayNumber(inEra) + 719468;
    assert (days + 719468) / 146097 == p.era && (days + 719468) % 146097 == doe;
    var y := YearOf(inEra);
    assert y / 4 == 25 * p.century + p.group && y / 100 == p.century;
    assert doe - (365 * y + y / 4 - y / 100) == p.day;
  }

  lemma {:induction false} LeapOfPlace(p: Place)
    requires IsPlace(p)
    ensures IsLeap(YearOf(p) + 1) <==> EndsLeap(p)
  {
    var y := YearOf(p) + 1;
    assert y == 4 * (100 * p.era + 25 * p.century + p.group) + p.year + 1;
    assert y % 4 == 0 <==> p.year == 3;
    assert y == 100 * (4 * p.era + p.century) + 4 * p.group + p.year + 1;
    assert y % 100 == 0 <==> p.year == 3 && p.group == 24;
    assert p.year == 3 && p.group == 24 ==> y == 400 * p.era + 100 * (p.century + 1);
    assert p.year == 3 && p.group == 24 ==> (y % 400 == 0 <==> p.century == 3);
  }

  lemma {:induction false} PlaceDateIsDate(p: Place)
    requires IsPlace(p)
    ensures IsDate(DateOf(p))
  {
    hide IsLeap, MonthPrime, YearOf;
    LeapOfPlace(p);
    MonthDay(p.day);
    var m := MonthPrime(p.day);
    if m == 11 { assert MonthStart(11) == 337; }
  }

  /** Every day number has a date that exists. */
  lemma {:induction false} CivilIsDate(days: int)
    ensures IsDate(CivilFromDays(days))
  {
    ClosedFormIsPlaceDate(days);
    PlaceDateIsDate(PlaceOf(days));
  }

  /** First day of month `m` of a year that starts on 1 March. */
  function MonthStart(m: int): int {
    (153 * m + 2) / 5
  }

  function MonthLength(m: int): int {
    if m == 1 || m == 3 || m == 6 || m == 8 then 30 else if m == 11 then 29 else 31
  }

  lemma {:induction false} MonthStarts(m: int)
    requires 0 <= m <= 11
    ensures 153 * m - 2 <= 5 * MonthStart(m) <= 153 * m + 2
    ensures MonthStart(m) + MonthLength(m) == if m < 11 then MonthStart(m + 1) else 366
  {
    if m < 6 {
      assert m == 0 || m == 1 || m == 2 || m == 3 || m == 4 || m == 5;
    } else {
      assert m == 6 || m == 7 || m == 8 || m == 9 || m == 10 || m == 11;
    }
  }

  lemma {:induction false} MonthDay(day: int)
    requires 0 <= day <= 365
    ensures 0 <= MonthPrime(day) <= 11
    ensures MonthStart(MonthPrime(day)) <= day < MonthStart(MonthPrime(day)) + MonthLength(MonthPrime(day))
  {
    hide MonthStart, MonthLength;
    var m := MonthPrime(day);
    assert 153 * m <= 5 * day + 2 < 153 * (m + 1);
    MonthStarts(m);
    if m < 11 { MonthStarts(m + 1); }
  }

  /** A day of month `m` is recognised as one. */
  lemma {:induction false} DayInMonth(day: int, m: int)
    requires 0 <= m <= 11 && MonthStart(m) <= day < MonthStart(m) + MonthLength(m)
    ensures MonthPrime(day) == m
  {
    hide MonthStart, MonthLength;
    MonthStarts(m);
    if m < 11 { MonthStarts(m + 1); }
    assert 153 * m <= 5 * day + 2 < 153 * (m + 1);
  }

  // ---------------------------------------------------------------- consecutive days

  function NextPlace(p: Place): Place {
    if p.day < (if EndsLeap(p) then 365 else 364) then p.(day := p.day + 1)
    else if p.year < 3 then p.(year := p.year + 1, day := 0)
    else if p.group < 24 then p.(group := p.group + 1, year := 0, day := 0)
    else if p.century < 3 then p.(century := p.century + 1, group := 0, year := 0, day := 0)
    else Place(p.era + 1, 0, 0, 0, 0)
  }

  lemma {:induction false} PlaceUnique(p: Place, q: Place)
    requires IsPlace(p) && IsPlace(q) && DayNumber(p) == DayNumber(q)
    ensures p == q
  {
    var x, y := DayNumber(p) + 719468 - 146097 * p.era, DayNumber(q) + 719468 - 146097 * q.era;
    assert 0 <= x < 146097 && 0 <= y < 146097;
    assert p.era == q.era;
    var u, v := x - 36524 * p.century, y - 36524 * q.century;
    assert 0 <= u <= 36524 && 0 <= v <= 36524 && (u == 36524 ==> p.century == 3) && (v == 36524 ==> q.century == 3);
    assert p.century == q.century;
    var w, z := u - 1461 * p.group, v - 1461 * q.group;
    assert 0 <= w < 1461 && 0 <= z < 1461;
    assert p.group == q.group;
    assert p.year == q.year;
  }

  /** Consecutive day numbers have consecutive dates. */
  lemma {:induction false} CivilIsConsecutive(days: int)
    ensures CivilFromDays(days + 1) == NextDate(CivilFromDays(days))
  {
    hide PlaceOf, CivilFromDays, DateOf, NextDate;
    ClosedFormIsPlaceDate(days);
    ClosedFormIsPlaceDate(days + 1);
    var p := PlaceOf(days);
    assert IsPlace(NextPlace(p)) && DayNumber(NextPlace(p)) == days + 1;
    PlaceUnique(PlaceOf(days + 1), NextPlace(p));
    NextPlaceNextDate(p);
  }

  lemma {:induction false} NextPlaceNextDate(p: Place)
    requires IsPlace(p)
    ensures DateOf(NextPlace(p)) == NextDate(DateOf(p))
  {
    hide IsLeap, MonthPrime;
    LeapOfPlace(p);
    MonthDay(p.day);
    var m := MonthPrime(p.day);
    MonthStarts(m);
    if NextPlace(p).day == p.day + 1 {
      DayInMonth(p.day + 1, if p.day + 1 < MonthStart(m) + MonthLength(m) then m else m + 1);
    } else {
      DayInMonth(p.day, 11);
      DayInMonth(0, 0);
      assert YearOf(NextPlace(p)) == YearOf(p) + 1;
    }
  }

  lemma EpochDate()
    ensures CivilFromDays(0) == Date(1970, 1, 1)
  {
  }

  // ---------------------------------------------------------------- the inverse

  /** The day number of a date. */
  function DaysFromCivil(d: Date): int {
    var y := if d.month <= 2 then d.year - 1 else d.year;
    var m := if d.month <= 2 then d.month + 9 else d.month - 3;
    146097 * (y / 400) + 365 * (y % 400) + (y % 400) / 4 - (y % 400) / 100 + MonthStart(m) + d.day - 1 - 719468
  }

  lemma {:induction false} DaysOfPlaceDate(p: Place)
    requires IsPlace(p)
    ensures DaysFromCivil(DateOf(p)) == DayNumber(p)
  {
    MonthDay(p.day);
    var y := YearOf(p);
    var inEra := 100 * p.century + 4 * p.group + p.year;
    assert y / 400 == p.era && y % 400 == inEra;
    assert inEra / 4 == 25 * p.century + p.group && inEra / 100 == p.century;
  }

  lemma {:induction false} DaysFromCivilInverts(days: int)
    ensures DaysFromCivil(CivilFromDays(days)) == days
  {
    ClosedFormIsPlaceDate(days);
    DaysOfPlaceDate(PlaceOf(days));
  }

  /** The place of an existing date. */
  function PlaceOfDate(d: Date): Place {
    var y := if d.month <= 2 then d.year - 1 else d.year;
    var m := if d.month <= 2 then d.month + 9 else d.month - 3;
    Place(y / 400, y % 400 / 100, y % 100 / 4, y % 4, MonthStart(m) + d.day - 1)
  }

  lemma {:induction false} PlaceOfDateInverts(d: Date)
    requires IsDate(d)
    ensures IsPlace(PlaceOfDate(d)) && DateOf(PlaceOfDate(d)) == d
  {
    var y := if d.month <= 2 then d.year - 1 else d.year;
    var m := if d.month <= 2 then d.month + 9 else d.month - 3;
    var p := PlaceOfDate(d);
    assert y % 100 == y % 400 % 100 && y % 4 == y % 100 % 4 by { Remainders(y); }
    assert YearOf(p) == y;
    LeapOfPlace(p.(day := 0));
    assert EndsLeap(p) <==> EndsLeap(p.(day := 0));
    DayInMonth(p.day, m);
  }

  lemma Remainders(y: int)
    ensures y % 100 == y % 400 % 100 && y % 4 == y % 100 % 4
  {
    assert y == 400 * (y / 400) + y % 400;
    assert y == 100 * (4 * (y / 400) + y % 400 / 100) + y % 400 % 100;
    assert y == 4 * (25 * (y / 100) + y % 100 / 4) + y % 100 % 4;
  }

  /** And every existing date is the date of its day number: the conversion is a bijection. */
  lemma {:induction false} CivilFromDaysInverts(d: Date)
    requires IsDate(d)
    ensures CivilFromDays(DaysFromCivil(d)) == d
  {
    PlaceOfDateInverts(d);
    var p := PlaceOfDate(d);
    DaysOfPlaceDate(p);
    ClosedFormIsPlaceDate(DaysFromCivil(d));
    PlaceUnique(PlaceOf(DayNumber(p)), p);
  }
}
