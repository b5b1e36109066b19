/**
 * The booking page: the flags recomputed for every course of the day
 * (full, tense, bookable), the date and type filter, the `YYYY-MM-DD`
 * date key and the five date tabs.
 */
module BookingPage {
  import opened Text
  import opened JsArray

  /** A course as the booking page lists it; `info` carries the fields the page passes through untouched. */
  datatype Course = Course(
    courseId: string,
    date: string,
    courseType: string,
    capacity: nat,
    bookedCount: nat,
    canBook: bool,
    isFull: bool,
    isTense: bool,
    info: map<string, string>)

  /**
   * `bookedCount / capacity >= 0.8` in integers. An empty class divides by
   * zero: any booking gives `Infinity` (tense), none gives `NaN` (not tense).
   */
  predicate FourFifthsBooked(booked: nat, capacity: nat) {
    if capacity == 0 then booked > 0 else 5 * booked >= 4 * capacity
  }

  /** The status update of `loadCourses`; `isTense` reads the flag the course came in with. */
  function Refresh(c: Course): (r: Course)
    ensures r.isFull <==> c.bookedCount >= c.capacity
    ensures r.canBook <==> c.bookedCount < c.capacity && c.canBook
    ensures r.isTense <==> FourFifthsBooked(c.bookedCount, c.capacity) && !c.isFull
    ensures r.canBook ==> !r.isFull
    ensures r.(isFull := c.isFull, isTense := c.isTense, canBook := c.canBook) == c
  {
    c.(isFull := c.bookedCount >= c.capacity,
       isTense := FourFifthsBooked(c.bookedCount, c.capacity) && !c.isFull,
       canBook := c.bookedCount < c.capacity && c.canBook)
  }

  predicate FullFlagCurrent(c: Course) {
    c.isFull <==> c.bookedCount >= c.capacity
  }

  /** When the incoming full flag is already right, a tense course is never full. */
  lemma TenseExcludesFull(c: Course)
    requires FullFlagCurrent(c)
    ensures Refresh(c).isTense ==> !Refresh(c).isFull
    ensures FullFlagCurrent(Refresh(c))
  {
  }

  /** A stale full flag lets a full course be marked tense as well. */
  lemma StaleFlagMarksFullCourseTense()
    ensures var c := Course("c1", "2024-01-01", "regular", 10, 10, true, false, false, map[]);
      Refresh(c).isFull && Refresh(c).isTense && !Refresh(c).canBook
  {
  }

  /** An empty criterion matches everything. */
  predicate Matches(c: Course, currentDate: string, currentType: string) {
    (currentDate == "" || c.date == currentDate) && (currentType == "" || c.courseType == currentType)
  }

  /** The refreshed courses of the selected date and type, in their original order. */
  function LoadCourses(all: seq<Course>, currentDate: string, currentType: string): (r: seq<Course>)
    ensures |r| <= |all|
  {
    Filter(RefreshAll(all), (c: Course) => Matches(c, currentDate, currentType))
  }

  function RefreshAll(cs: seq<Course>): (r: seq<Course>)
    ensures |r| == |cs|
    ensures forall i :: 0 <= i < |cs| ==> r[i] == Refresh(cs[i])
  {
    seq(|cs|, i requires 0 <= i < |cs| => Refresh(cs[i]))
  }

  /** A course is listed exactly when it is the refresh of a course of the selected date and type. */
  lemma LoadedCourses(all: seq<Course>, currentDate: string, currentType: string, c: Course)
    ensures c in LoadCourses(all, currentDate, currentType) <==>
      (exists i :: 0 <= i < |all| && c == Refresh(all[i])) && Matches(c, currentDate, currentType)
  {
    var m := RefreshAll(all);
    FilterMembers(m, (x: Course) => Matches(x, currentDate, currentType), c);
    if c in m {
      var i :| 0 <= i < |m| && m[i] == c;
      assert c == Refresh(all[i]);
    }
    if exists i :: 0 <= i < |all| && c == Refresh(all[i]) {
      var i :| 0 <= i < |all| && c == Refresh(all[i]);
      assert m[i] == c;
    }
  }

  /** With no date and no type selected, every course is listed, refreshed, in order. */
  lemma NoCriteriaListsAll(all: seq<Course>)
    ensures LoadCourses(all, "", "") == RefreshAll(all)
  {
    FilterAll(RefreshAll(all), (c: Course) => Matches(c, "", ""));
  }

  /** `formatDate`: the year as written, month and day padded to two digits. */
  function FormatDate(year: nat, month: nat, day: nat): (r: string)
  {
    NatToString(year) + "-" + Pad2(month) + "-" + Pad2(day)
  }

  /** Splitting the key at the dashes and reading the fields gives back the date. */
  lemma {:induction false} FormatDateRoundTrip(year: nat, month: nat, day: nat)
    ensures var parts := Split(FormatDate(year, month, day), '-');
      |parts| == 3 && parts[0] == NatToString(year) && parts[1] == Pad2(month) && parts[2] == Pad2(day)
    ensures month < 100 ==> |Pad2(month)| == 2
    ensures DigitsValue(NatToString(year)) == year
    ensures DigitsValue(Pad2(month)) == month && DigitsValue(Pad2(day)) == day
  {
    Pad2RoundTrip(month);
    Pad2RoundTrip(day);
    NatToStringRoundTrip(year);
    FormatDateSplits(year, month, day);
    if month < 100 && month >= 10 {
      assert NatToString(month) == NatToString(month / 10) + [DigitChar(month % 10)];
    }
  }

  /** The key splits at its two dashes into the year, month and day texts. */
  lemma FormatDateSplits(year: nat, month: nat, day: nat)
    ensures var parts := Split(FormatDate(year, month, day), '-');
      |parts| == 3 && parts[0] == NatToString(year) && parts[1] == Pad2(month) && parts[2] == Pad2(day)
  {
    var y, m, d := NatToString(year), Pad2(month), Pad2(day);
    assert '-' !in y && '-' !in m && '-' !in d by {
      assert forall i :: 0 <= i < |y| ==> IsDigit(y[i]);
      assert forall i :: 0 <= i < |m| ==> IsDigit(m[i]);
      assert forall i :: 0 <= i < |d| ==> IsDigit(d[i]);
    }
    assert FormatDate(year, month, day) == Join([y, m, d], "-");
    SplitJoin([y, m, d], '-');
  }

  /** Two different dates never share a key. */
  lemma FormatDateInjective(y1: nat, m1: nat, d1: nat, y2: nat, m2: nat, d2: nat)
    requires FormatDate(y1, m1, d1) == FormatDate(y2, m2, d2)
    ensures y1 == y2 && m1 == m2 && d1 == d2
  {
    FormatDateRoundTrip(y1, m1, d1);
    FormatDateRoundTrip(y2, m2, d2);
  }

  /** A calendar day as `Date` decomposes it; `weekday` is `getDay()`, 0 for Sunday. */
  datatype Day = Day(year: nat, month: nat, day: nat, weekday: nat)

  datatype DateOption = DateOption(date: string, week: string, day: nat, month: string)

  const WeekDays: seq<string> := ["周日", "周一", "周二", "周三", "周四", "周五", "周六"]

  /** The tab label of the `i`-th day from today. */
  function Label(i: nat, d: Day): (r: string)
    requires d.weekday < 7
  {
    if i == 0 then "今天" else if i == 1 then "明天" else WeekDays[d.weekday]
  }

  /**
   * `initDateOptions`, given today and the four following days: one tab per
   * day, and today selected.
   */
  function InitDateOptions(days: seq<Day>): (r: (seq<DateOption>, string))
    requires |days| == 5
    requires forall i :: 0 <= i < 5 ==> days[i].weekday < 7
    ensures |r.0| == 5
    ensures r.1 == r.0[0].date
    ensures forall i :: 0 <= i < 5 ==> r.0[i].date == FormatDate(days[i].year, days[i].month, days[i].day)
    ensures r.0[0].week == "今天" && r.0[1].week == "明天"
    ensures forall i :: 2 <= i < 5 ==> r.0[i].week == WeekDays[days[i].weekday]
    ensures forall i :: 0 <= i < 5 ==> r.0[i].day == days[i].day && r.0[i].month == NatToString(days[i].month) + "月"
  {
    var options := seq(5, i requires 0 <= i < 5 =>
      DateOption(FormatDate(days[i].year, days[i].month, days[i].day), Label(i, days[i]), days[i].day, NatToString(days[i].month) + "月"));
    (options, options[0].date)
  }

  /** Five different days give five different tabs, and the selected one is today's. */
  lemma DateTabsDistinct(days: seq<Day>)
    requires |days| == 5
    requires forall i :: 0 <= i < 5 ==> days[i].weekday < 7
    requires forall i, j :: 0 <= i < j < 5 ==> (days[i].year, days[i].month, days[i].day) != (days[j].year, days[j].month, days[j].day)
    ensures forall i, j :: 0 <= i < j < 5 ==> InitDateOptions(days).0[i].date != InitDateOptions(days).0[j].date
  {
    var r := InitDateOptions(days).0;
    forall i, j | 0 <= i < j < 5
      ensures r[i].date != r[j].date
    {
      if r[i].date == r[j].date {
        FormatDateInjective(days[i].year, days[i].month, days[i].day, days[j].year, days[j].month, days[j].day);
      }
    }
  }
}
