/**
 * The admin statistics page: the three charts built from the statistics
 * answer, the store and period pickers, and the captions of the current
 * choice. The dates of the booking trend come in already split into
 * calendar fields.
 */
module Statistics {
  import opened Wrappers
  import opened Text
  import TimeFormat
  import AdminFilters
  import JsArray

  datatype TrendPoint = TrendPoint(date: TimeFormat.Moment, bookings: int)
  datatype DanceTypeStat = DanceTypeStat(danceTypeName: string, bookings: int)
  datatype TeacherStat = TeacherStat(teacherName: string, bookings: int, classes: int)

  /** The parts of the statistics answer the charts read. */
  datatype Stats = Stats(bookingTrend: seq<TrendPoint>, danceTypeStats: seq<DanceTypeStat>, teacherStats: seq<TeacherStat>)

  /** A chart: the labels along its axis and its one series. */
  datatype Chart = Chart(categories: seq<string>, data: seq<int>)

  datatype Charts = Charts(bookingTrend: Chart, danceTypes: Chart, teachers: Chart)

  /** `processChartData`. */
  function ProcessChartData(s: Stats): (c: Charts)
  {
    var t := s.bookingTrend;
    var d := s.danceTypeStats;
    var e := s.teacherStats;
    Charts(
      Chart(seq(|t|, i requires 0 <= i < |t| => TimeFormat.FormatTimeComplete(t[i].date, "MM-DD")),
            seq(|t|, i requires 0 <= i < |t| => t[i].bookings)),
      Chart(seq(|d|, i requires 0 <= i < |d| => d[i].danceTypeName),
            seq(|d|, i requires 0 <= i < |d| => d[i].bookings)),
      Chart(seq(|e|, i requires 0 <= i < |e| => e[i].teacherName),
            seq(|e|, i requires 0 <= i < |e| => e[i].classes)))
  }

  /**
   * Each chart has one label and one value per row of its source, in the
   * source's order: the trend is labelled by month and day and counts
   * bookings, the dance-type chart counts bookings, and the teacher chart
   * counts classes taught, not bookings.
   */
  lemma ChartsFollowTheirRows(s: Stats)
    ensures var c := ProcessChartData(s);
      |c.bookingTrend.categories| == |c.bookingTrend.data| == |s.bookingTrend|
      && |c.danceTypes.categories| == |c.danceTypes.data| == |s.danceTypeStats|
      && |c.teachers.categories| == |c.teachers.data| == |s.teacherStats|
    ensures var c := ProcessChartData(s);
      forall i :: 0 <= i < |s.bookingTrend| ==>
        c.bookingTrend.categories[i] == Pad2(s.bookingTrend[i].date.month) + "-" + Pad2(s.bookingTrend[i].date.day)
        && c.bookingTrend.data[i] == s.bookingTrend[i].bookings
    ensures var c := ProcessChartData(s);
      forall i :: 0 <= i < |s.teacherStats| ==>
        c.teachers.categories[i] == s.teacherStats[i].teacherName && c.teachers.data[i] == s.teacherStats[i].classes
    ensures var c := ProcessChartData(s);
      forall i :: 0 <= i < |s.danceTypeStats| ==>
        c.danceTypes.categories[i] == s.danceTypeStats[i].danceTypeName && c.danceTypes.data[i] == s.danceTypeStats[i].bookings
  {
    forall i | 0 <= i < |s.bookingTrend|
      ensures TimeFormat.FormatTimeComplete(s.bookingTrend[i].date, "MM-DD")
        == Pad2(s.bookingTrend[i].date.month) + "-" + Pad2(s.bookingTrend[i].date.day)
    {
      TimeFormat.MonthDayFormat(s.bookingTrend[i].date);
    }
  }

  // ---------------------------------------------------------------------
  // The store picker.

  /** `switchStore`: picker entry 0 is `'all'`, entry `i` the id of store `i - 1`; past the end, `None` (`undefined`). */
  function PickedStore(stores: seq<AdminFilters.Store>, index: nat): (r: Option<string>)
  {
    if index == 0 then Some("all")
    else if index <= |stores| then Some(stores[index - 1].storeId)
    else None
  }

  /** `getStoreOptions`: `'全部门店'`, then the store names. */
  function StoreOptions(stores: seq<AdminFilters.Store>): (r: seq<string>)
  {
    ["全部门店"] + seq(|stores|, i requires 0 <= i < |stores| => stores[i].name)
  }

  /** `getStoreOptionText` for the current store filter; no store has the id `undefined`. */
  function StoreOptionText(stores: seq<AdminFilters.Store>, storeId: Option<string>): (r: string)
  {
    match storeId
    case Some(id) => AdminFilters.StoreDisplay(stores, id)
    case None => AdminFilters.AllStores
  }

  /** Store `k` is the first with its id, and its id is not `'all'`. */
  predicate FirstWithId(stores: seq<AdminFilters.Store>, k: nat) {
    k < |stores| && stores[k].storeId != "all" && forall j :: 0 <= j < k ==> stores[j].storeId != stores[k].storeId
  }

  /**
   * The picker's labels and ids line up: after picking entry `i`, the
   * caption shown is the `i`-th label, provided the store picked is the
   * first with its id.
   */
  lemma PickerAligned(stores: seq<AdminFilters.Store>, index: nat)
    requires index == 0 || FirstWithId(stores, index - 1)
    ensures |StoreOptions(stores)| == |stores| + 1
    ensures PickedStore(stores, index).Some?
    ensures StoreOptionText(stores, PickedStore(stores, index)) == StoreOptions(stores)[index]
  {
    if index > 0 {
      StoreFound(stores, index - 1);
      assert StoreOptions(stores)[index] == stores[index - 1].name;
    }
  }

  /** The caption of a store's id is that store's name, when it is the first with the id. */
  lemma StoreFound(stores: seq<AdminFilters.Store>, k: nat)
    requires FirstWithId(stores, k)
    ensures StoreOptionText(stores, Some(stores[k].storeId)) == stores[k].name
  {
    var id := stores[k].storeId;
    var p := (s: AdminFilters.Store) => s.storeId == id;
    var r := JsArray.FindIndex(stores, p);
    assert p(stores[k]);
    assert r.Some?;
    assert !(r.value < k) && !(k < r.value);
  }

  // ---------------------------------------------------------------------
  // The period picker.

  const Periods: seq<string> := ["day", "week", "month"]

  /** `switchPeriod`: entries 0, 1 and 2 are day, week and month; past the end, `None` (`undefined`). */
  function PickedPeriod(index: nat): (r: Option<string>)
  {
    if index < |Periods| then Some(Periods[index]) else None
  }

  /** `getPeriodOptions`. */
  const PeriodOptions: seq<string> := ["今日", "本周", "本月"]

  /** `getPeriodOptionText`: the caption of the period, `'本月'` for anything else, `undefined` included. */
  function PeriodOptionText(period: Option<string>): (r: string)
  {
    match period
    case Some("day") => "今日"
    case Some("week") => "本周"
    case _ => "本月"
  }

  /** After picking entry `i` the caption is the `i`-th label; an index past the end shows `'本月'`. */
  lemma PeriodPickerAligned(index: nat)
    ensures index < |PeriodOptions| ==> PeriodOptionText(PickedPeriod(index)) == PeriodOptions[index]
    ensures index >= |PeriodOptions| ==> PeriodOptionText(PickedPeriod(index)) == "本月"
  {
  }

  /** Every period shows one of the three captions; month and an unknown period look alike. */
  lemma PeriodCaptions(period: Option<string>)
    ensures PeriodOptionText(period) in PeriodOptions
    ensures PeriodOptionText(period) == "本月" <==> period != Some("day") && period != Some("week")
  {
  }
}
