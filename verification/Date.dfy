/** The Gregorian calendar arithmetic of `mytinyhttpd/utils/date.cc`.

    The two conversions are straight-line integer arithmetic with stacked divisions. They are
    written here with C's truncating division and compared with a calendar that is defined
    independently of them: month lengths, the 4/100/400 leap-year rule and the successor of a date.
 */
module Date {

  /** C's `/` on signed integers: it truncates toward zero. */
  function Quot(a: int, b: int): (q: int)
    requires b > 0
  {
    if a >= 0 then a / b else -((-a) / b)
  }

  /** C's `%` on signed integers: it takes the sign of the dividend. */
  function Rem(a: int, b: int): (r: int)
    requires b > 0
  {
    a - b * Quot(a, b)
  }

  datatype YearMonthDay = YearMonthDay(year: int, month: int, day: int)

  // ---------------------------------------------------------------- the code under study

  function ToJulianDayNumber(year: int, month: int, day: int): (jdn: int) {
    var a := Quot(14 - month, 12);
    var y := year + 4800 - a;
    var m := month + 12 * a - 3;
    day + Quot(153 * m + 2, 5) + y * 365 + Quot(y, 4) - Quot(y, 100) + Quot(y, 400) - 32045
  }

  function ToYearMonthDay(jdn: int): (ymd: YearMonthDay) {
    var a := jdn + 32044;
    var b := Quot(4 * a + 3, 146097);
    var c := a - Quot(b * 146097, 4);
    var d := Quot(4 * c + 3, 1461);
    var e := c - Quot(1461 * d, 4);
    var m := Quot(5 * e + 2, 153);
    YearMonthDay(b * 100 + d - 4800 + Quot(m, 10), m + 3 - 12 * Quot(m, 10), e - Quot(153 * m + 2, 5) + 1)
  }

  function WeekDay(jdn: int): (w: int) {
    Rem(jdn + 1, 7)
  }

  // ---------------------------------------------------------------- the calendar it is compared with

  const FIRST_DAY_NUMBER := -32044

  predicate IsLeap(year: int) {
    year % 4 == 0 && (year % 100 != 0 || year % 400 == 0)
  }

  function DaysInMonth(year: int, month: int): (n: int)
    requires 1 <= month <= 12
  {
    if month == 2 then (if IsLeap(year) then 29 else 28)
    else if month == 4 || month == 6 || month == 9 || month == 11 then 30
    else 31
  }

  predicate IsDate(d: YearMonthDay) {
    1 <= d.month <= 12 && 1 <= d.day <= DaysInMonth(d.year, d.month)
  }

  /** On or after 1 March -4800, the first day whose shifted year is not negative. */
  predicate InDomain(d: YearMonthDay) {
    IsDate(d) && (d.year > -4800 || (d.year == -4800 && d.month >= 3))
  }

  function NextDay(d: YearMonthDay): (n: YearMonthDay)
    requires InDomain(d)
    ensures InDomain(n)
  {
    if d.day < DaysInMonth(d.year, d.month) then d.(day := d.day + 1)
    else if d.month < 12 then YearMonthDay(d.year, d.month + 1, 1)
    else YearMonthDay(d.year + 1, 1, 1)
  }

  function DayNumber(d: YearMonthDay): (jdn: int) {
    ToJulianDayNumber(d.year, d.month, d.day)
  }

  // ---------------------------------------------------------------- the calendar seen from March

  /** Years and months counted from March, as both conversions do internally. */
  datatype MarchDate = MarchDate(y: int, m: int, day: int)

  function ToMarch(d: YearMonthDay): (s: MarchDate)
    requires InDomain(d)
    ensures s.y >= 0 && 0 <= s.m <= 11
    ensures s.m <= 9 ==> d.month == s.m + 3 && d.year == s.y - 4800
    ensures s.m > 9 ==> d.month == s.m - 9 && d.year == s.y - 4799
  {
    if d.month >= 3 then MarchDate(d.year + 4800, d.month - 3, d.day)
    else MarchDate(d.year + 4799, d.month + 9, d.day)
  }

  /** Days of a March-based year before its month `m`, adding up month lengths. */
  function MonthStart(m: int): (n: int)
    requires 0 <= m <= 11
  {
    [0, 31, 61, 92, 122, 153, 184, 214, 245, 275, 306, 337][m]
  }

  /** Days before the March-based year `y`, adding up year lengths; the year before it ends with
      the February of `y`. Shifting a year by 4800 does not change whether it is a leap year. */
  function YearStart(y: nat): (n: nat) {
    if y == 0 then 0 else YearStart(y - 1) + (if IsLeap(y) then 366 else 365)
  }

  lemma MonthStartClosedForm(m: int)
    requires 0 <= m <= 11
    ensures MonthStart(m) == (153 * m + 2) / 5
  {
  }

  lemma {:induction false} YearStartClosedForm(y: nat)
    ensures YearStart(y) == 365 * y + y / 4 - y / 100 + y / 400
  {
    if y > 0 {
      YearStartClosedForm(y - 1);
      CarryOne(y - 1, 4);
      CarryOne(y - 1, 100);
      CarryOne(y - 1, 400);
      LeapNesting(y);
    }
  }

  lemma LeapNesting(y: nat)
    ensures y % 400 == 0 ==> y % 100 == 0
    ensures y % 100 == 0 ==> y % 4 == 0
  {
    if y % 400 == 0 { DivUnique(y, 100, 4 * (y / 400), 0); }
    if y % 100 == 0 { DivUnique(y, 4, 25 * (y / 100), 0); }
  }

  /** Days since the origin, counted along the March-based calendar. */
  function MarchNumber(s: MarchDate): (n: int)
    requires s.y >= 0 && 0 <= s.m <= 11
  {
    YearStart(s.y) + MonthStart(s.m) + s.day - 1
  }

  /** The code's arithmetic counts days along the March-based calendar. */
  lemma DayNumberFromMarch(d: YearMonthDay)
    requires InDomain(d)
    ensures DayNumber(d) == MarchNumber(ToMarch(d)) - 32044
  {
    var s := ToMarch(d);
    MonthStartClosedForm(s.m);
    YearStartClosedForm(s.y);
    assert Quot(14 - d.month, 12) == if s.m > 9 then 1 else 0;
  }

  lemma CarryOne(y: int, k: int)
    requires y >= 0 && k > 1
    ensures (y + 1) / k - y / k == if (y + 1) % k == 0 then 1 else 0
  {
    var q, r := y / k, y % k;
    assert y == k * q + r;
    if r == k - 1 {
      assert y + 1 == k * (q + 1);
      DivUnique(y + 1, k, q + 1, 0);
    } else {
      DivUnique(y + 1, k, q, r + 1);
    }
  }

  lemma DivUnique(n: int, k: int, q: int, r: int)
    requires k > 0 && 0 <= r < k && n == k * q + r
    ensures n / k == q && n % k == r
  {
    var q', r' := n / k, n % k;
    assert n == k * q' + r';
    if q > q' {
      MulAtLeast(k, q - q');
    } else if q < q' {
      MulAtLeast(k, q' - q);
    }
  }

  lemma MulAtLeast(k: int, x: int)
    requires k > 0 && x >= 1
    ensures k * x >= k
  {
  }

  // ---------------------------------------------------------------- results

  lemma MarchSuccessor(d: YearMonthDay)
    requires InDomain(d)
    ensures MarchNumber(ToMarch(NextDay(d))) == MarchNumber(ToMarch(d)) + 1
  {
    var s := ToMarch(d);
    if d.month == 2 && d.day == DaysInMonth(d.year, d.month) {
      LeapShift(d.year);
      assert YearStart(s.y + 1) == YearStart(s.y) + (if IsLeap(s.y + 1) then 366 else 365);
    }
  }

  lemma LeapShift(year: int)
    ensures IsLeap(year + 4800) == IsLeap(year)
  {
    DivUnique(year + 4800, 4, year / 4 + 1200, year % 4);
    DivUnique(year + 4800, 100, year / 100 + 48, year % 100);
    DivUnique(year + 4800, 400, year / 400 + 12, year % 400);
  }

  /** The calendar successor of a date has the next day number. */
  lemma SuccessorAddsOne(d: YearMonthDay)
    requires InDomain(d)
    ensures DayNumber(NextDay(d)) == DayNumber(d) + 1
  {
    MarchSuccessor(d);
    DayNumberFromMarch(d);
    DayNumberFromMarch(NextDay(d));
  }

  /** The fields of a March-based year split into century and year of the century. */
  lemma CenturySplit(y: int, b: int, r: int)
    requires y >= 0 && b == y / 100 && r == y % 100
    ensures y / 4 == 25 * b + r / 4
    ensures y / 400 == b / 4
    ensures YearStart(y) == (146097 * b) / 4 + (1461 * r) / 4
  {
    YearStartClosedForm(y);
    assert y == 100 * b + r;
    DivUnique(y, 4, 25 * b + r / 4, r % 4);
    DivUnique(y, 400, b / 4, 100 * (b % 4) + r);
    DivUnique(146097 * b, 4, 36524 * b + b / 4, b % 4);
    DivUnique(1461 * r, 4, 365 * r + r / 4, r % 4);
  }

  /** The day of the March-based year: at most 364, or 365 on a 29 February. */
  lemma DayOfYearBound(d: YearMonthDay)
    requires InDomain(d)
    ensures var s := ToMarch(d); var e := s.day - 1 + MonthStart(s.m);
            0 <= e <= (if IsLeap(s.y + 1) then 365 else 364) && (5 * e + 2) / 153 == s.m
  {
    var s := ToMarch(d);
    MonthStartClosedForm(s.m);
  }

  /** The intermediate values `ToYearMonthDay` goes through on the number of `d`: the century, the
      year of the century, the day of the March-based year and its month. */
  lemma Decompose(d: YearMonthDay) returns (b: int, r: int, e: int, m: int)
    requires InDomain(d)
    ensures b >= 0 && 0 <= r <= 99 && 0 <= e <= 365 && 0 <= m <= 11
    ensures DayNumber(d) + 32044 == e + (1461 * r) / 4 + (146097 * b) / 4
    ensures (4 * (e + (1461 * r) / 4 + (146097 * b) / 4) + 3) / 146097 == b
    ensures (4 * (e + (1461 * r) / 4) + 3) / 1461 == r
    ensures (5 * e + 2) / 153 == m
    ensures d == YearMonthDay(100 * b + r - 4800 + m / 10, m + 3 - 12 * (m / 10), e - MonthStart(m) + 1)
  {
    var s := ToMarch(d);
    m := s.m;
    e := s.day - 1 + MonthStart(m);
    b, r := s.y / 100, s.y % 100;
    DayNumberFromMarch(d);
    DayOfYearBound(d);
    CenturySplit(s.y, b, r);
    CenturyRecovered(s.y, e);
    if IsLeap(s.y + 1) {
      LeapAtCenturyYear(s.y);
    }
    YearRecovered(r, e);
    assert m / 10 == if m > 9 then 1 else 0;
  }

  lemma LeapAtCenturyYear(y: int)
    requires y >= 0 && IsLeap(y + 1)
    ensures (y % 100) % 4 == 3
  {
    var q, b := (y + 1) / 4, y / 100;
    assert y == 100 * b + y % 100 && y + 1 == 4 * q;
    DivUnique(y % 100, 4, q - 1 - 25 * b, 3);
  }

  /** Reading back the calendar fields of a day number gives the date that produced it. */
  lemma RoundTripFromDate(d: YearMonthDay)
    requires InDomain(d)
    ensures DayNumber(d) >= FIRST_DAY_NUMBER
    ensures ToYearMonthDay(DayNumber(d)) == d
  {
    var b, r, e, m := Decompose(d);
    ReadBackFields(DayNumber(d), b, r, e, m);
  }

  /** What `ToYearMonthDay` returns, given the values of its intermediate divisions. */
  lemma ReadBackFields(jdn: int, b: int, r: int, e: int, m: int)
    requires b >= 0 && r >= 0 && e >= 0 && 0 <= m <= 11
    requires jdn + 32044 == e + (1461 * r) / 4 + (146097 * b) / 4
    requires (4 * (jdn + 32044) + 3) / 146097 == b
    requires (4 * (e + (1461 * r) / 4) + 3) / 1461 == r
    requires (5 * e + 2) / 153 == m
    ensures ToYearMonthDay(jdn)
         == YearMonthDay(100 * b + r - 4800 + m / 10, m + 3 - 12 * (m / 10), e - MonthStart(m) + 1)
  {
    hide Quot, MonthStart, ToYearMonthDay;
    var c := e + (1461 * r) / 4;
    CenturyQuotients(jdn + 32044, b, c);
    YearQuotients(c, r, e);
    MonthQuotients(e, m);
    FromQuotients(jdn, b, c, r, e, m);
  }

  lemma FromQuotients(jdn: int, b: int, c: int, r: int, e: int, m: int)
    requires Quot(4 * (jdn + 32044) + 3, 146097) == b && jdn + 32044 - Quot(b * 146097, 4) == c
    requires Quot(4 * c + 3, 1461) == r && c - Quot(1461 * r, 4) == e && Quot(5 * e + 2, 153) == m
    ensures ToYearMonthDay(jdn)
         == YearMonthDay(100 * b + r - 4800 + Quot(m, 10), m + 3 - 12 * Quot(m, 10), e - Quot(153 * m + 2, 5) + 1)
  {
    hide Quot;
  }

  lemma CenturyQuotients(a: int, b: int, c: int)
    requires b >= 0 && c >= 0 && a == c + (146097 * b) / 4 && (4 * a + 3) / 146097 == b
    ensures Quot(4 * a + 3, 146097) == b && a - Quot(b * 146097, 4) == c
  {
  }

  lemma YearQuotients(c: int, r: int, e: int)
    requires r >= 0 && e >= 0 && c == e + (1461 * r) / 4 && (4 * c + 3) / 1461 == r
    ensures Quot(4 * c + 3, 1461) == r && c - Quot(1461 * r, 4) == e
  {
  }

  lemma MonthQuotients(e: int, m: int)
    requires e >= 0 && 0 <= m <= 11 && (5 * e + 2) / 153 == m
    ensures Quot(5 * e + 2, 153) == m && Quot(153 * m + 2, 5) == MonthStart(m) && Quot(m, 10) == m / 10
  {
    MonthStartClosedForm(m);
    hide MonthStart;
  }

  /** The century is recovered: its last day is one later only every fourth century. */
  lemma CenturyRecovered(y: int, e: int)
    requires y >= 0 && 0 <= e <= (if IsLeap(y + 1) then 365 else 364)
    ensures var b, r := y / 100, y % 100;
            (4 * (e + (1461 * r) / 4 + (146097 * b) / 4) + 3) / 146097 == b
  {
    var b, r := y / 100, y % 100;
    var c := e + (1461 * r) / 4;
    if r == 99 {
      LastYearOfCentury(y);
    }
    CenturyOfDay(b, c);
  }

  lemma LastYearOfCentury(y: int)
    requires y >= 0 && y % 100 == 99
    ensures IsLeap(y + 1) <==> (y / 100) % 4 == 3
  {
    var b := y / 100;
    DivUnique(y + 1, 100, b + 1, 0);
    DivUnique(y + 1, 400, (b + 1) / 4, 100 * ((b + 1) % 4));
    DivUnique(y + 1, 4, 25 * (b + 1), 0);
  }

  lemma CenturyOfDay(b: int, c: int)
    requires b >= 0 && 0 <= c <= (if b % 4 == 3 then 36524 else 36523)
    ensures (4 * (c + (146097 * b) / 4) + 3) / 146097 == b
  {
    DivUnique(146097 * b, 4, 36524 * b + b / 4, b % 4);
    DivUnique(4 * (c + (146097 * b) / 4) + 3, 146097, b, 4 * c + 3 - b % 4);
  }

  /** The year of the century is recovered from the day of the century. */
  lemma YearRecovered(r: int, e: int)
    requires 0 <= r <= 99 && 0 <= e <= 365
    requires e == 365 ==> r % 4 == 3
    ensures var c := e + (1461 * r) / 4; (4 * c + 3) / 1461 == r
  {
    DivUnique(1461 * r, 4, 365 * r + r / 4, r % 4);
    DivUnique(4 * (e + (1461 * r) / 4) + 3, 1461, r, 4 * e + 3 - r % 4);
  }

  /** Counting days from the first one reaches every day number. */
  lemma {:induction false} DateOf(jdn: int) returns (d: YearMonthDay)
    requires jdn >= FIRST_DAY_NUMBER
    ensures InDomain(d) && DayNumber(d) == jdn
    decreases jdn - FIRST_DAY_NUMBER
  {
    if jdn == FIRST_DAY_NUMBER {
      d := YearMonthDay(-4800, 3, 1);
    } else {
      var p := DateOf(jdn - 1);
      SuccessorAddsOne(p);
      d := NextDay(p);
    }
  }

  /** Every day number from the first one on is the number of a valid date, namely the one
      `ToYearMonthDay` returns: together with `RoundTripFromDate`, the two are mutually inverse. */
  lemma RoundTripFromDayNumber(jdn: int)
    requires jdn >= FIRST_DAY_NUMBER
    ensures InDomain(ToYearMonthDay(jdn))
    ensures DayNumber(ToYearMonthDay(jdn)) == jdn
  {
    var d := DateOf(jdn);
    RoundTripFromDate(d);
  }

  /** Reading back commutes with the calendar successor. */
  lemma ReadBackSuccessor(d: YearMonthDay)
    requires InDomain(d)
    ensures ToYearMonthDay(DayNumber(d) + 1) == NextDay(d)
  {
    SuccessorAddsOne(d);
    RoundTripFromDate(NextDay(d));
  }

  // ---------------------------------------------------------------- machine integers

  predicate FitsInt32(x: int) {
    -0x8000_0000 <= x < 0x8000_0000
  }

  /** Every intermediate value of `ToYearMonthDay` fits `int` exactly when the largest one,
      `4 * (jdn + 32044) + 3`, does. */
  lemma ReadBackFitsInt32(jdn: int)
    requires jdn >= FIRST_DAY_NUMBER
    ensures var a := jdn + 32044;
            var b := Quot(4 * a + 3, 146097);
            var c := a - Quot(b * 146097, 4);
            var d := Quot(4 * c + 3, 1461);
            var e := c - Quot(1461 * d, 4);
            var m := Quot(5 * e + 2, 153);
            && (FitsInt32(4 * a + 3)
                <==> FitsInt32(a) && FitsInt32(4 * a) && FitsInt32(4 * a + 3) && FitsInt32(b * 146097)
                     && FitsInt32(c) && FitsInt32(4 * c + 3) && FitsInt32(1461 * d) && FitsInt32(e)
                     && FitsInt32(5 * e + 2) && FitsInt32(153 * m + 2) && FitsInt32(b * 100 + d))
            && 0 <= e <= 365 && 0 <= m <= 11
  {
    hide Quot, ToYearMonthDay, FitsInt32, MonthStart, InDomain;
    RoundTripFromDayNumber(jdn);
    var b, r, e, m := Decompose(ToYearMonthDay(jdn));
    var a, c := jdn + 32044, e + (1461 * r) / 4;
    CenturyQuotients(a, b, c);
    YearQuotients(c, r, e);
    MonthQuotients(e, m);
    AllFit(a, b, c, r, e, m);
  }

  lemma AllFit(a: int, b: int, c: int, r: int, e: int, m: int)
    requires a == c + (146097 * b) / 4 && c == e + (1461 * r) / 4 && (4 * a + 3) / 146097 == b
    requires b >= 0 && 0 <= r <= 99 && 0 <= e <= 365 && 0 <= m <= 11
    ensures FitsInt32(4 * a + 3)
            <==> FitsInt32(a) && FitsInt32(4 * a) && FitsInt32(4 * a + 3) && FitsInt32(b * 146097)
                 && FitsInt32(c) && FitsInt32(4 * c + 3) && FitsInt32(1461 * r) && FitsInt32(e)
                 && FitsInt32(5 * e + 2) && FitsInt32(153 * m + 2) && FitsInt32(b * 100 + r)
  {
    assert 146097 * b <= 4 * a + 3;
    assert c <= 36525;
  }

  /** Every intermediate value of `ToJulianDayNumber` fits `int` for the dates whose number can be
      read back without overflow. */
  lemma DayNumberFitsInt32(d: YearMonthDay)
    requires InDomain(d)
    requires FitsInt32(4 * (DayNumber(d) + 32044) + 3)
    ensures var s := ToMarch(d);
            var n := s.day + MonthStart(s.m);
            && FitsInt32(s.y * 365) && FitsInt32(n + s.y * 365) && FitsInt32(n + s.y * 365 + s.y / 4)
            && FitsInt32(n + s.y * 365 + s.y / 4 - s.y / 100) && FitsInt32(n + YearStart(s.y))
  {
    var s := ToMarch(d);
    DayNumberFromMarch(d);
    YearStartClosedForm(s.y);
    CenturyDivisors(s.y);
  }

  lemma CenturyDivisors(y: nat)
    ensures 0 <= y / 400 <= y / 100 <= y / 4 <= y
  {
  }

  // ---------------------------------------------------------------- week days

  /** The week day is a number from 0 to 6 that advances by one modulo 7 each day, from Monday
      1 January -4712 (day number 0) on. */
  lemma WeekDayAdvances(jdn: int)
    requires jdn >= -1
    ensures 0 <= WeekDay(jdn) <= 6
    ensures WeekDay(jdn + 1) == (WeekDay(jdn) + 1) % 7
    ensures WeekDay(jdn + 7) == WeekDay(jdn)
  {
  }

  /** C's remainder makes the week day of an earlier day number negative: it is in range exactly
      when the day number is not before the origin, or falls on its week day. */
  lemma WeekDayInRangeIff(jdn: int)
    ensures 0 <= WeekDay(jdn) <= 6 <==> jdn >= -1 || (jdn + 1) % 7 == 0
  {
  }

  /** 1 January 1970 was a Thursday with day number 2440588. */
  lemma UnixEpoch()
    ensures ToJulianDayNumber(1970, 1, 1) == 2440588 && WeekDay(2440588) == 4
  {
  }
}
