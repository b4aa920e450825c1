/** UTC and local time conversion of `mytinyhttpd/utils/timezone.cc`.

    `gmtime_r` and `timegm` are modelled by the file's own UTC pair. A `Rep` is taken as already
    built; reading one from a file is not part of this model.
 */
module TimeZone {
  import opened Date

  const SECONDS_PER_DAY := 86400
  const JULIAN_DAY_OF_1970_01_01 := ToJulianDayNumber(1970, 1, 1)

  /** The fields of `struct tm` the code fills, without the zone name. */
  datatype Tm = Tm(sec: int, min: int, hour: int, mday: int, mon: int, year: int, wday: int, yday: int,
                   isdst: bool, gmtoff: int)

  const ZeroTm := Tm(0, 0, 0, 0, 0, 0, 0, 0, false, 0)

  // ---------------------------------------------------------------- UTC

  /** The day number that holds a second, by floor division: the reading the code reaches through a
      truncating division and a correction. */
  function DayOf(s: int): (jdn: int) {
    s / SECONDS_PER_DAY + JULIAN_DAY_OF_1970_01_01
  }

  /** Seconds whose day can be converted without overflow. */
  predicate InRange(s: int) {
    DayOf(s) >= FIRST_DAY_NUMBER && FitsInt32(4 * (DayOf(s) + 32044) + 3)
  }

  /** The broken-down UTC time of a second, by floor division. */
  function UtcOf(s: int): (tm: Tm) {
    var ymd := ToYearMonthDay(DayOf(s));
    var t := s % SECONDS_PER_DAY;
    Tm(t % 60, t / 60 % 60, t / 3600, ymd.day, ymd.month - 1, ymd.year - 1900, WeekDay(DayOf(s)), 0, false, 0)
  }

  function FromUtcFields(year: int, month: int, day: int, hour: int, minute: int, second: int): (s: int) {
    (ToJulianDayNumber(year, month, day) - JULIAN_DAY_OF_1970_01_01) * SECONDS_PER_DAY
    + (hour * 3600 + minute * 60 + second)
  }

  function FromUtcTime(utc: Tm): (s: int) {
    FromUtcFields(utc.year + 1900, utc.mon + 1, utc.mday, utc.hour, utc.min, utc.sec)
  }

  method FillHms(seconds: nat, utc: Tm) returns (filled: Tm)
    requires seconds < 0x1_0000_0000
    ensures filled == utc.(sec := filled.sec, min := filled.min, hour := filled.hour)
    ensures 0 <= filled.sec < 60 && 0 <= filled.min < 60
    ensures filled.hour * 3600 + filled.min * 60 + filled.sec == seconds
  {
    filled := utc.(sec := seconds % 60);
    var minutes := seconds / 60;
    filled := filled.(min := minutes % 60);
    filled := filled.(hour := minutes / 60);
  }

  method ToUtcTime(secondsSinceEpoch: int, yday: bool) returns (utc: Tm)
    requires InRange(secondsSinceEpoch)
    ensures utc.(yday := 0) == UtcOf(secondsSinceEpoch)
    ensures !yday ==> utc.yday == 0
    ensures yday && utc.year + 1900 > -4800
            ==> utc.yday == DayOfYear(YearMonthDay(utc.year + 1900, utc.mon + 1, utc.mday))
  {
    hide ToYearMonthDay, ToJulianDayNumber, WeekDay;
    utc := ZeroTm;
    var seconds := Rem(secondsSinceEpoch, SECONDS_PER_DAY);
    var days := Quot(secondsSinceEpoch, SECONDS_PER_DAY);
    if seconds < 0 {
      seconds := seconds + SECONDS_PER_DAY;
      days := days - 1;
    }
    FloorFromTruncation(secondsSinceEpoch);
    utc := FillHms(seconds, utc);
    HmsUnique(seconds, utc.hour, utc.min, utc.sec);
    var jdn := days + JULIAN_DAY_OF_1970_01_01;
    var ymd := ToYearMonthDay(jdn);
    utc := utc.(year := ymd.year - 1900, mon := ymd.month - 1, mday := ymd.day, wday := WeekDay(jdn));
    if yday {
      var startOfYear := ToJulianDayNumber(ymd.year, 1, 1);
      utc := utc.(yday := jdn - startOfYear);
      RoundTripFromDayNumber(jdn);
      if ymd.year > -4800 {
        DayOfYearFromDayNumbers(ymd);
      }
    }
  }

  /** A truncating quotient and remainder, corrected when the remainder is negative, are the floor
      quotient and remainder. */
  lemma FloorFromTruncation(s: int)
    ensures var q, r := Quot(s, SECONDS_PER_DAY), Rem(s, SECONDS_PER_DAY);
            if r < 0 then s / SECONDS_PER_DAY == q - 1 && s % SECONDS_PER_DAY == r + SECONDS_PER_DAY
            else s / SECONDS_PER_DAY == q && s % SECONDS_PER_DAY == r
  {
    var q, r := Quot(s, SECONDS_PER_DAY), Rem(s, SECONDS_PER_DAY);
    if r < 0 {
      DivUnique(s, SECONDS_PER_DAY, q - 1, r + SECONDS_PER_DAY);
    } else {
      DivUnique(s, SECONDS_PER_DAY, q, r);
    }
  }

  lemma HmsUnique(t: nat, h: int, m: int, s: int)
    requires 0 <= s < 60 && 0 <= m < 60 && h * 3600 + m * 60 + s == t
    ensures t / 3600 == h && t / 60 % 60 == m && t % 60 == s
  {
    DivUnique(t, 60, h * 60 + m, s);
    DivUnique(t, 3600, h, m * 60 + s);
    DivUnique(t / 60, 60, h, m);
  }

  /** Days of the year before a date, adding up month lengths. */
  function DayOfYear(d: YearMonthDay): (n: int)
    requires 1 <= d.month <= 12
    decreases d.month
  {
    if d.month == 1 then d.day - 1
    else DaysInMonth(d.year, d.month - 1) + DayOfYear(d.(month := d.month - 1))
  }

  lemma {:induction false} DayOfYearFromDayNumbers(d: YearMonthDay)
    requires IsDate(d) && d.year > -4800
    ensures DayNumber(d) - ToJulianDayNumber(d.year, 1, 1) == DayOfYear(d)
    decreases d.month
  {
    var first := YearMonthDay(d.year, d.month, 1);
    SameMonth(d);
    if d.month > 1 {
      var lastOfPrevious := YearMonthDay(d.year, d.month - 1, DaysInMonth(d.year, d.month - 1));
      SuccessorAddsOne(lastOfPrevious);
      DayOfYearFromDayNumbers(lastOfPrevious);
      DayShift(YearMonthDay(d.year, d.month - 1, d.day), lastOfPrevious.day);
    }
  }

  lemma SameMonth(d: YearMonthDay)
    ensures DayNumber(d) == DayNumber(d.(day := 1)) + d.day - 1
  {
  }

  lemma {:induction false} DayShift(d: YearMonthDay, day: int)
    requires 1 <= d.month <= 12
    ensures DayOfYear(d) - d.day == DayOfYear(d.(day := day)) - day
    decreases d.month
  {
    if d.month > 1 {
      DayShift(d.(month := d.month - 1), day);
    }
  }

  // ---------------------------------------------------------------- UTC results

  /** Converting a second to UTC fields and back gives the second, negative ones included, and the
      fields are those of a valid date and time of day. */
  lemma UtcRoundTrip(s: int)
    requires DayOf(s) >= FIRST_DAY_NUMBER
    ensures FromUtcTime(UtcOf(s)) == s
    ensures var tm := UtcOf(s);
            && 0 <= tm.sec < 60 && 0 <= tm.min < 60 && 0 <= tm.hour < 24
            && InDomain(YearMonthDay(tm.year + 1900, tm.mon + 1, tm.mday))
            && (0 <= tm.wday <= 6 <==> DayOf(s) >= -1 || (DayOf(s) + 1) % 7 == 0)
  {
    hide ToYearMonthDay, ToJulianDayNumber, WeekDay;
    RoundTripFromDayNumber(DayOf(s));
    WeekDayInRangeIff(DayOf(s));
    HmsOfSecond(s % SECONDS_PER_DAY);
  }

  lemma HmsOfSecond(t: int)
    requires 0 <= t < SECONDS_PER_DAY
    ensures t / 3600 * 3600 + t / 60 % 60 * 60 + t % 60 == t && 0 <= t / 3600 < 24
  {
    var m := t / 60;
    var h := m / 60;
    assert t == 60 * m + t % 60 && m == 60 * h + m % 60;
    HmsUnique(t, h, m % 60, t % 60);
  }

  /** Converting valid fields to a second and back gives the same date and time of day. */
  lemma UtcFieldsRoundTrip(d: YearMonthDay, hour: int, minute: int, second: int)
    requires InDomain(d) && 0 <= hour < 24 && 0 <= minute < 60 && 0 <= second < 60
    ensures var tm := UtcOf(FromUtcFields(d.year, d.month, d.day, hour, minute, second));
            && YearMonthDay(tm.year + 1900, tm.mon + 1, tm.mday) == d
            && tm.hour == hour && tm.min == minute && tm.sec == second
            && tm.wday == WeekDay(DayNumber(d))
  {
    hide ToYearMonthDay, ToJulianDayNumber, WeekDay;
    var t := hour * 3600 + minute * 60 + second;
    var s := FromUtcFields(d.year, d.month, d.day, hour, minute, second);
    DivUnique(s, SECONDS_PER_DAY, DayNumber(d) - JULIAN_DAY_OF_1970_01_01, t);
    RoundTripFromDate(d);
    HmsUnique(t, hour, minute, second);
  }

  /** A day later the date is the calendar successor, the week day is the next one modulo 7 and the
      time of day is the same. */
  lemma UtcNextDay(s: int)
    requires DayOf(s) >= -1
    ensures var tm, tm' := UtcOf(s), UtcOf(s + SECONDS_PER_DAY);
            && tm'.wday == (tm.wday + 1) % 7
            && (tm'.hour, tm'.min, tm'.sec) == (tm.hour, tm.min, tm.sec)
            && ToYearMonthDay(DayOf(s + SECONDS_PER_DAY)) == NextDay(DateOfSecond(s))
  {
    hide ToYearMonthDay, ToJulianDayNumber, WeekDay;
    DivUnique(s + SECONDS_PER_DAY, SECONDS_PER_DAY, s / SECONDS_PER_DAY + 1, s % SECONDS_PER_DAY);
    WeekDayAdvances(DayOf(s));
    RoundTripFromDayNumber(DayOf(s));
    ReadBackSuccessor(DateOfSecond(s));
  }

  function DateOfSecond(s: int): (d: YearMonthDay)
    requires DayOf(s) >= FIRST_DAY_NUMBER
    ensures InDomain(d)
  {
    RoundTripFromDayNumber(DayOf(s));
    ToYearMonthDay(DayOf(s))
  }

  // ---------------------------------------------------------------- transition tables

  datatype Transition = Transition(gmttime: int, localtime: int, idx: nat)

  datatype Localtime = Localtime(gmtOffset: int, isDst: bool, arrbIdx: int)

  datatype Rep = Rep(transitions: seq<Transition>, localtimes: seq<Localtime>)

  predicate WellFormed(rep: Rep) {
    && rep.localtimes != []
    && forall i :: 0 <= i < |rep.transitions| ==> rep.transitions[i].idx < |rep.localtimes|
  }

  /** What `Comp` compares: the GMT instant or the local time of a transition. */
  function Key(t: Transition, gmt: bool): (k: int) {
    if gmt then t.gmttime else t.localtime
  }

  predicate Sorted(ts: seq<Transition>, gmt: bool) {
    forall i, j :: 0 <= i < j < |ts| ==> Key(ts[i], gmt) <= Key(ts[j], gmt)
  }

  predicate StrictlySorted(ts: seq<Transition>, gmt: bool) {
    forall i, j :: 0 <= i < j < |ts| ==> Key(ts[i], gmt) < Key(ts[j], gmt)
  }

  /** The linear scan: the last transition at or before `key`, or -1. */
  function LastAtOrBefore(ts: seq<Transition>, key: int, gmt: bool): (i: int)
    ensures -1 <= i < |ts|
  {
    if ts == [] then -1
    else if Key(ts[|ts| - 1], gmt) <= key then |ts| - 1
    else LastAtOrBefore(ts[..|ts| - 1], key, gmt)
  }

  lemma {:induction false} LastAtOrBeforeIs(ts: seq<Transition>, key: int, gmt: bool, i: int)
    requires Sorted(ts, gmt) && -1 <= i < |ts|
    requires i >= 0 ==> Key(ts[i], gmt) <= key
    requires i + 1 < |ts| ==> key < Key(ts[i + 1], gmt)
    ensures LastAtOrBefore(ts, key, gmt) == i
    decreases |ts|
  {
    if |ts| > 0 && i < |ts| - 1 {
      LastAtOrBeforeIs(ts[..|ts| - 1], key, gmt, i);
    }
  }

  lemma {:induction false} LastAtOrBeforeSplits(ts: seq<Transition>, key: int, gmt: bool)
    requires Sorted(ts, gmt)
    ensures var i := LastAtOrBefore(ts, key, gmt);
            && (forall j :: 0 <= j <= i ==> Key(ts[j], gmt) <= key)
            && (forall j :: i < j < |ts| ==> key < Key(ts[j], gmt))
    decreases |ts|
  {
    if ts != [] && key < Key(ts[|ts| - 1], gmt) {
      var pre := ts[..|ts| - 1];
      LastAtOrBeforeSplits(pre, key, gmt);
      var i := LastAtOrBefore(ts, key, gmt);
      forall j | i < j < |ts| ensures key < Key(ts[j], gmt) {
        if j < |pre| { assert pre[j] == ts[j]; }
      }
    }
  }

  /** `std::lower_bound` over the table. */
  method LowerBound(ts: seq<Transition>, key: int, gmt: bool) returns (first: nat)
    requires Sorted(ts, gmt)
    ensures first <= |ts|
    ensures forall i :: 0 <= i < first ==> Key(ts[i], gmt) < key
    ensures forall i :: first <= i < |ts| ==> key <= Key(ts[i], gmt)
  {
    first := 0;
    var count: nat := |ts|;
    while count > 0
      invariant first + count <= |ts|
      invariant forall i :: 0 <= i < first ==> Key(ts[i], gmt) < key
      invariant forall i :: first + count <= i < |ts| ==> key <= Key(ts[i], gmt)
    {
      var step := count / 2;
      if Key(ts[first + step], gmt) < key {
        first := first + step + 1;
        count := count - step - 1;
      } else {
        count := step;
      }
    }
  }

  function LocaltimeAt(rep: Rep, i: int): (l: Localtime)
    requires WellFormed(rep) && -1 <= i < |rep.transitions|
  {
    if i == -1 then rep.localtimes[0] else rep.localtimes[rep.transitions[i].idx]
  }

  /** Among transitions with the key searched for, the binary search stops at the first one. */
  method FindLocaltime(rep: Rep, key: int, gmt: bool) returns (local: Localtime, ghost at: int)
    requires WellFormed(rep) && Sorted(rep.transitions, gmt)
    ensures -1 <= at < |rep.transitions| && local == LocaltimeAt(rep, at)
    ensures forall i :: 0 <= i < at ==> Key(rep.transitions[i], gmt) < key
    ensures at >= 0 ==> Key(rep.transitions[at], gmt) <= key
    ensures at + 1 < |rep.transitions| ==>
              key < Key(rep.transitions[at + 1], gmt) || (at >= 0 && key == Key(rep.transitions[at], gmt))
    ensures StrictlySorted(rep.transitions, gmt) ==> at == LastAtOrBefore(rep.transitions, key, gmt)
  {
    var ts := rep.transitions;
    if |ts| == 0 || key < Key(ts[0], gmt) {
      local, at := rep.localtimes[0], -1;
    } else {
      var i := LowerBound(ts, key, gmt);
      if i != |ts| {
        if key != Key(ts[i], gmt) {
          i := i - 1;
        }
        local, at := rep.localtimes[ts[i].idx], i;
      } else {
        local, at := rep.localtimes[ts[|ts| - 1].idx], |ts| - 1;
      }
    }
    if StrictlySorted(ts, gmt) {
      LastAtOrBeforeIs(ts, key, gmt, at);
    }
  }

  // ---------------------------------------------------------------- local time

  function LocaltimeFor(rep: Rep, key: int, gmt: bool): (l: Localtime)
    requires WellFormed(rep)
  {
    LocaltimeAt(rep, LastAtOrBefore(rep.transitions, key, gmt))
  }

  function ToLocalTime(rep: Rep, s: int): (tm: Tm)
    requires WellFormed(rep)
  {
    var local := LocaltimeFor(rep, s, true);
    UtcOf(s + local.gmtOffset).(isdst := local.isDst, gmtoff := local.gmtOffset)
  }

  function FromLocalTime(rep: Rep, localTm: Tm): (s: int)
    requires WellFormed(rep)
  {
    var seconds := FromUtcTime(localTm);
    var local := LocaltimeFor(rep, seconds, false);
    var tryTm := ToLocalTime(rep, seconds - local.gmtOffset);
    var repeated := localTm.isdst && !tryTm.isdst && tryTm.hour == localTm.hour && tryTm.min == localTm.min;
    (if repeated then seconds - 3600 else seconds) - local.gmtOffset
  }

  /** The two calls as the code makes them, on tables for which the binary search is the scan. */
  method LocalTimeThere(rep: Rep, s: int) returns (tm: Tm)
    requires WellFormed(rep) && StrictlySorted(rep.transitions, true)
    requires InRange(s + LocaltimeFor(rep, s, true).gmtOffset)
    ensures tm == ToLocalTime(rep, s)
  {
    var local, _ := FindLocaltime(rep, s, true);
    tm := ToUtcTime(s + local.gmtOffset, false);
    tm := tm.(isdst := local.isDst, gmtoff := local.gmtOffset);
  }

  method LocalTimeBack(rep: Rep, localTm: Tm) returns (s: int)
    requires WellFormed(rep) && StrictlySorted(rep.transitions, true) && StrictlySorted(rep.transitions, false)
    requires localTm.isdst ==>
               var u := FromUtcTime(localTm) - LocaltimeFor(rep, FromUtcTime(localTm), false).gmtOffset;
               InRange(u + LocaltimeFor(rep, u, true).gmtOffset)
    ensures s == FromLocalTime(rep, localTm)
  {
    hide FromUtcTime, UtcOf;
    var seconds := FromUtcTime(localTm);
    var local, _ := FindLocaltime(rep, seconds, false);
    if localTm.isdst {
      var tryTm := LocalTimeThere(rep, seconds - local.gmtOffset);
      if !tryTm.isdst && tryTm.hour == localTm.hour && tryTm.min == localTm.min {
        seconds := seconds - 3600;
      }
    }
    s := seconds - local.gmtOffset;
  }

  /** The zone built from a fixed offset. */
  function FixedOffset(eastOfUtc: int): (rep: Rep)
    ensures WellFormed(rep)
  {
    Rep([], [Localtime(eastOfUtc, false, 0)])
  }

  lemma FixedOffsetRoundTrip(eastOfUtc: int, s: int)
    requires DayOf(s + eastOfUtc) >= FIRST_DAY_NUMBER
    ensures FromLocalTime(FixedOffset(eastOfUtc), ToLocalTime(FixedOffset(eastOfUtc), s)) == s
  {
    hide UtcOf, FromUtcFields, DayOf;
    UtcRoundTrip(s + eastOfUtc);
  }

  // ---------------------------------------------------------------- zones with transitions

  function OffsetAt(rep: Rep, i: int): (o: int)
    requires WellFormed(rep) && -1 <= i < |rep.transitions|
  {
    LocaltimeAt(rep, i).gmtOffset
  }

  /** A table with its transitions in order, each with the local time it starts at. */
  predicate IsTable(rep: Rep) {
    && WellFormed(rep)
    && StrictlySorted(rep.transitions, true)
    && StrictlySorted(rep.transitions, false)
    && (forall i :: 0 <= i < |rep.transitions| ==>
          rep.transitions[i].localtime == rep.transitions[i].gmttime + OffsetAt(rep, i))
  }

  /** The repeated period: instants whose local time comes again after the clocks are set back. */
  predicate InRepeatedHour(rep: Rep, s: int)
    requires WellFormed(rep)
  {
    var i := LastAtOrBefore(rep.transitions, s, true);
    i + 1 < |rep.transitions| && rep.transitions[i + 1].localtime <= s + OffsetAt(rep, i)
  }

  /** The transition the local time of an instant is looked up to. */
  function LookedUp(rep: Rep, s: int): (j: int)
    requires WellFormed(rep)
    ensures -1 <= j < |rep.transitions|
  {
    LastAtOrBefore(rep.transitions, s + LocaltimeFor(rep, s, true).gmtOffset, false)
  }

  /** Clocks were set back by one hour, from daylight saving time: the flag is set here and clear at the
      instant tried, an hour later, when the clock shows the same. */
  predicate FlagTellsApart(rep: Rep, s: int)
    requires WellFormed(rep)
  {
    var here, tried := ToLocalTime(rep, s), ToLocalTime(rep, s + 3600);
    && LocaltimeFor(rep, s, true).gmtOffset - OffsetAt(rep, LookedUp(rep, s)) == 3600
    && Corrected(here, tried)
  }

  /** Looking a local time up finds the transition in force, or in the repeated period a later one, which
      has a smaller offset. */
  lemma LocalLookup(rep: Rep, s: int)
    requires IsTable(rep)
    ensures var i, j := LastAtOrBefore(rep.transitions, s, true), LookedUp(rep, s);
            if InRepeatedHour(rep, s) then i < j && OffsetAt(rep, j) < OffsetAt(rep, i) else j == i
  {
    hide LastAtOrBefore;
    var ts := rep.transitions;
    LastAtOrBeforeSplits(ts, s, true);
    var i := LastAtOrBefore(ts, s, true);
    LastAtOrBeforeSplits(ts, s + OffsetAt(rep, i), false);
    if !InRepeatedHour(rep, s) {
      LastAtOrBeforeIs(ts, s + OffsetAt(rep, i), false, i);
    }
  }

  /** The test that corrects a time in the repeated hour. */
  predicate Corrected(here: Tm, tried: Tm) {
    here.isdst && !tried.isdst && tried.hour == here.hour && tried.min == here.min
  }

  /** What converting there and back comes to, by the offset in force and the one looked up. */
  lemma ThereAndBack(rep: Rep, s: int)
    requires WellFormed(rep) && DayOf(s + LocaltimeFor(rep, s, true).gmtOffset) >= FIRST_DAY_NUMBER
    ensures var shift := LocaltimeFor(rep, s, true).gmtOffset - OffsetAt(rep, LookedUp(rep, s));
            var corrected := Corrected(ToLocalTime(rep, s), ToLocalTime(rep, s + shift));
            FromLocalTime(rep, ToLocalTime(rep, s)) == s + shift - (if corrected then 3600 else 0)
  {
    hide UtcOf, FromUtcFields, DayOf, LastAtOrBefore;
    ReadsLocal(rep, s);
  }

  lemma ReadsLocal(rep: Rep, s: int)
    requires WellFormed(rep) && DayOf(s + LocaltimeFor(rep, s, true).gmtOffset) >= FIRST_DAY_NUMBER
    ensures FromUtcTime(ToLocalTime(rep, s)) == s + LocaltimeFor(rep, s, true).gmtOffset
  {
    hide UtcOf, FromUtcFields, DayOf, LastAtOrBefore;
    UtcRoundTrip(s + LocaltimeFor(rep, s, true).gmtOffset);
  }

  /** Local time is UTC moved by the offset in force, which is reported with it and with its flag: that of the
      last transition at or before the instant, or the first local time of the table if there is none. */
  lemma LocalTimeIs(rep: Rep, s: int, i: int)
    requires WellFormed(rep) && Sorted(rep.transitions, true) && -1 <= i < |rep.transitions|
    requires i >= 0 ==> rep.transitions[i].gmttime <= s
    requires i + 1 < |rep.transitions| ==> s < rep.transitions[i + 1].gmttime
    requires DayOf(s + LocaltimeAt(rep, i).gmtOffset) >= FIRST_DAY_NUMBER
    ensures var tm := ToLocalTime(rep, s);
            && FromUtcTime(tm) - tm.gmtoff == s
            && tm.gmtoff == LocaltimeAt(rep, i).gmtOffset && tm.isdst == LocaltimeAt(rep, i).isDst
  {
    hide UtcOf, FromUtcFields, DayOf;
    LastAtOrBeforeIs(rep.transitions, s, true, i);
    ReadsLocal(rep, s);
  }

  /** Local time converts back to the instant it came from, if and only if the instant is not in a repeated
      period or the daylight-saving flag tells it from its repetition. */
  lemma LocalRoundTripIff(rep: Rep, s: int)
    requires IsTable(rep)
    requires DayOf(s + LocaltimeFor(rep, s, true).gmtOffset) >= FIRST_DAY_NUMBER
    ensures FromLocalTime(rep, ToLocalTime(rep, s)) == s <==> !InRepeatedHour(rep, s) || FlagTellsApart(rep, s)
  {
    hide ToLocalTime, FromLocalTime, DayOf, LastAtOrBefore, InRepeatedHour, StrictlySorted;
    ThereAndBack(rep, s);
    LocalLookup(rep, s);
  }

  /** A table as most zones have it: clocks are only ever set back by the one hour that ends daylight
      saving time, with at least that hour before the next transition. */
  predicate IsZone(rep: Rep) {
    && IsTable(rep)
    && (forall i :: 0 <= i < |rep.transitions| ==> ChangeIsSane(rep, i))
  }

  predicate ChangeIsSane(rep: Rep, i: int)
    requires WellFormed(rep) && 0 <= i < |rep.transitions|
  {
    OffsetAt(rep, i) < OffsetAt(rep, i - 1) ==>
      && OffsetAt(rep, i) == OffsetAt(rep, i - 1) - 3600
      && LocaltimeAt(rep, i - 1).isDst && !LocaltimeAt(rep, i).isDst
      && (i + 1 < |rep.transitions| ==>
            && rep.transitions[i].gmttime + 3600 <= rep.transitions[i + 1].gmttime
            && rep.transitions[i].localtime + 3600 <= rep.transitions[i + 1].localtime)
  }

  /** In such a zone local time converts back everywhere, the repeated hour included. */
  lemma ZoneRoundTrip(rep: Rep, s: int)
    requires IsZone(rep)
    requires DayOf(s + LocaltimeFor(rep, s, true).gmtOffset) >= FIRST_DAY_NUMBER
    ensures FromLocalTime(rep, ToLocalTime(rep, s)) == s
  {
    hide UtcOf, DayOf, FromLocalTime, LastAtOrBefore;
    LocalRoundTripIff(rep, s);
    if InRepeatedHour(rep, s) {
      var ts := rep.transitions;
      var i := LastAtOrBefore(ts, s, true);
      LastAtOrBeforeSplits(ts, s, true);
      assert ChangeIsSane(rep, i + 1);
      LastAtOrBeforeIs(ts, s + OffsetAt(rep, i), false, i + 1);
      LastAtOrBeforeIs(ts, s + 3600, true, i + 1);
    }
  }

  /** Clocks set back by half an hour, with no daylight saving: the repeated half hour is lost. */
  lemma HalfHourChangeIsAmbiguous()
    ensures var rep := Rep([Transition(100000, 98200, 1)], [Localtime(0, false, 0), Localtime(-1800, false, 0)]);
            && IsTable(rep)
            && FromLocalTime(rep, ToLocalTime(rep, 99000)) == 100800
  {
    hide UtcOf, FromUtcFields;
    var rep := Rep([Transition(100000, 98200, 1)], [Localtime(0, false, 0), Localtime(-1800, false, 0)]);
    assert DayOf(99000) >= FIRST_DAY_NUMBER;
    LastAtOrBeforeIs(rep.transitions, 99000, true, -1);
    LastAtOrBeforeIs(rep.transitions, 99000, false, 0);
    UtcRoundTrip(99000);
  }
}
