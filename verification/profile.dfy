/**
 * The profile page: the member's bookings loaded page by page under a
 * status filter, switching that filter, cancelling a booking, the status
 * captions and styles of bookings and course cards, the booking time line,
 * logging out and the language toggle.
 */
module Profile {
  import opened Wrappers
  import opened JsValue
  import opened Text
  import opened Paging
  import MockApi
  import I18n
  import LanguageSwitch
  import BookingPage

  /** The bookings part of the page's data. */
  datatype Bookings = Bookings(pager: Pager<MockApi.Booking>, status: string)

  /** The page's data when it attaches: no bookings, page 1, status `'upcoming'`, `loading` set. */
  const Attached := Bookings(Pager([], 1, true, true), "upcoming")

  /** The query of `loadBookings`: the status, then the page and the limit. */
  function BookingsQuery(b: Bookings, reset: bool, limit: int): (ps: Params)
  {
    [("status", Str(b.status))] + PageParams(Queried(b.pager, reset), limit)
  }

  /** The query names the selected status and page 1 on a reset, the counter's page otherwise. */
  lemma BookingsQueryFields(b: Bookings, reset: bool, limit: int)
    ensures Get(BookingsQuery(b, reset, limit), "status") == Some(Str(b.status))
    ensures Get(BookingsQuery(b, reset, limit), "page") == Some(Num(if reset then 1 else b.pager.page))
    ensures Get(BookingsQuery(b, reset, limit), "limit") == Some(Num(limit))
  {
    var ps := BookingsQuery(b, reset, limit);
    assert ps[1..][1..] == [("limit", Num(limit))];
    assert Get(ps[1..][1..], "limit") == Some(Num(limit));
    assert Get(ps[1..], "limit") == Get(ps[1..][1..], "limit");
  }

  /** `loadBookings(reset)`: the shared merge; a failed request changes nothing. */
  function LoadBookings(b: Bookings, reset: bool, response: Option<Batch<MockApi.Booking>>): (r: Bookings)
    ensures r.status == b.status
  {
    b.(pager := Paging.Load(b.pager, reset, response))
  }

  /** `switchBookingStatus`: the new status, page 1 and `hasMore` set, then the query of a reset load. */
  function SwitchStatus(b: Bookings, status: string, limit: int): (r: (Bookings, Params))
  {
    var t := b.(status := status, pager := b.pager.(page := 1, hasMore := true));
    (t, BookingsQuery(t, true, limit))
  }

  /**
   * After switching the status and loading the mock server's answer, the
   * list holds exactly the first page of the bookings with that status
   * (all bookings for `'all'`), in the server's order, whatever was shown
   * before.
   */
  lemma SwitchShowsFirstPageOfStatus(b: Bookings, status: string, limit: nat, all: seq<MockApi.Booking>)
    requires limit >= 1
    ensures var (t, q) := SwitchStatus(b, status, limit);
      var kept := MockApi.FilterBookings(all, status);
      var r := LoadBookings(t, true, Some(ServerBatch(kept, limit, 1)));
      && Get(q, "page") == Some(Num(1)) && Get(q, "status") == Some(Str(status))
      && r.pager.items == kept[..MockApi.Min(limit, |kept|)]
      && r.pager.page == 2
      && (r.pager.hasMore <==> limit < |kept|)
  {
    var (t, q) := SwitchStatus(b, status, limit);
    BookingsQueryFields(t, true, limit);
    var kept := MockApi.FilterBookings(all, status);
    BrowseShowsPrefix(t.pager, kept, limit, 1);
  }

  /** The statuses the mock server's bookings carry. */
  predicate ServerStatus(b: MockApi.Booking) {
    b.status in {"booked", "completed", "cancelled"}
  }

  /** The page opens on `'upcoming'`, a status no booking of the mock server carries, so its first list is empty. */
  lemma UpcomingMatchesNothing(all: seq<MockApi.Booking>)
    requires forall i :: 0 <= i < |all| ==> ServerStatus(all[i])
    ensures MockApi.FilterBookings(all, Attached.status) == []
  {
    var kept := MockApi.FilterBookings(all, Attached.status);
    if kept != [] {
      MockApi.BookingFilterMembers(all, Attached.status, kept[0]);
      assert false;
    }
  }

  /** `loadMore`: the next page of the same status, only while there is more and nothing is loading. */
  function LoadMore(b: Bookings, limit: int): (r: Option<Params>)
  {
    if Paging.LoadMore(b.pager).Some? then Some(BookingsQuery(b, false, limit)) else None
  }

  lemma LoadMoreKeepsStatus(b: Bookings, limit: int)
    ensures LoadMore(b, limit).Some? <==> b.pager.hasMore && !b.pager.loading
    ensures LoadMore(b, limit).Some? ==> Get(LoadMore(b, limit).value, "status") == Some(Str(b.status))
    ensures LoadMore(b, limit).Some? ==> Get(LoadMore(b, limit).value, "page") == Some(Num(b.pager.page))
  {
    BookingsQueryFields(b, false, limit);
  }

  /** `cancelBooking`: the request goes out only on confirmation; after it succeeds, a reset load of page 1. */
  function Cancel(b: Bookings, confirmed: bool, requestOk: bool, limit: int): (r: Option<(Bookings, Params)>)
  {
    if !confirmed || !requestOk then None
    else
      var t := b.(pager := b.pager.(page := 1, hasMore := true));
      Some((t, BookingsQuery(t, true, limit)))
  }

  /** A cancellation reloads under the same status from page 1, and does nothing when declined or failed. */
  lemma CancelReloadsSameStatus(b: Bookings, confirmed: bool, requestOk: bool, limit: int)
    ensures Cancel(b, confirmed, requestOk, limit).Some? <==> confirmed && requestOk
    ensures Cancel(b, confirmed, requestOk, limit).Some? ==>
      var (t, q) := Cancel(b, confirmed, requestOk, limit).value;
      t.status == b.status && t.pager.items == b.pager.items
      && Get(q, "page") == Some(Num(1)) && Get(q, "status") == Some(Str(b.status))
  {
    if confirmed && requestOk {
      var (t, q) := Cancel(b, confirmed, requestOk, limit).value;
      BookingsQueryFields(t, true, limit);
    }
  }

  // ---------------------------------------------------------------------
  // Status captions and styles.

  const BookingStatuses: seq<string> := ["booked", "completed", "cancelled", "no_show"]

  function BookingStatusText(status: string): (r: string)
  {
    match status
    case "booked" => "待上课"
    case "completed" => "已完成"
    case "cancelled" => "已取消"
    case "no_show" => "未到场"
    case _ => "未知"
  }

  function BookingStatusClass(status: string): (r: string)
  {
    match status
    case "booked" => "status-primary"
    case "completed" => "status-success"
    case "cancelled" => "status-warning"
    case "no_show" => "status-error"
    case _ => "status-default"
  }

  /** The status a caption stands for; `None` for the unknown caption. */
  function BookingStatusOfText(text: string): (r: Option<string>)
  {
    match text
    case "待上课" => Some("booked")
    case "已完成" => Some("completed")
    case "已取消" => Some("cancelled")
    case "未到场" => Some("no_show")
    case _ => None
  }

  /**
   * Every known status has its own caption, which names it back; every
   * other status shows `未知`; and the style is the default one exactly when
   * the caption is `未知`.
   */
  lemma BookingStatusCaptions(status: string)
    ensures status in BookingStatuses ==> BookingStatusOfText(BookingStatusText(status)) == Some(status)
    ensures status !in BookingStatuses ==> BookingStatusText(status) == "未知"
    ensures BookingStatusText(status) == "未知" <==> BookingStatusClass(status) == "status-default"
  {
  }

  const CardStatuses: seq<string> := ["active", "expired", "used_up"]

  function CardStatusText(status: string): (r: string)
  {
    match status
    case "active" => "有效"
    case "expired" => "已过期"
    case "used_up" => "已用完"
    case _ => "未知"
  }

  function CardStatusClass(status: string): (r: string)
  {
    match status
    case "active" => "status-success"
    case "expired" => "status-warning"
    case "used_up" => "status-error"
    case _ => "status-default"
  }

  function CardStatusOfText(text: string): (r: Option<string>)
  {
    match text
    case "有效" => Some("active")
    case "已过期" => Some("expired")
    case "已用完" => Some("used_up")
    case _ => None
  }

  /** Course cards: the same round trip and fallback, and a usable card is the only one styled as success. */
  lemma CardStatusCaptions(status: string)
    ensures status in CardStatuses ==> CardStatusOfText(CardStatusText(status)) == Some(status)
    ensures status !in CardStatuses ==> CardStatusText(status) == "未知" && CardStatusClass(status) == "status-default"
    ensures CardStatusClass(status) == "status-success" <==> status == "active"
  {
  }

  // ---------------------------------------------------------------------
  // The booking time line.

  /** `date.split('-').slice(1).join('-')`: the date without its year. */
  function MonthDay(date: string): (r: string)
  {
    Join(Split(date, '-')[1..], "-")
  }

  /** On a `YYYY-MM-DD` key the month-day part is the padded month and day. */
  lemma MonthDayOfKey(year: nat, month: nat, day: nat)
    ensures MonthDay(BookingPage.FormatDate(year, month, day)) == Pad2(month) + "-" + Pad2(day)
  {
    BookingPage.FormatDateRoundTrip(year, month, day);
  }

  /**
   * `formatBookingTime`, with the whole-day difference between the booking's
   * day and today given: today, tomorrow and yesterday by name, any other
   * day by month and day.
   */
  function BookingTime(dayDiff: int, date: string, startTime: string, endTime: string): (r: string)
  {
    var span := " " + startTime + "-" + endTime;
    if dayDiff == 0 then "今天" + span
    else if dayDiff == 1 then "明天" + span
    else if dayDiff == -1 then "昨天" + span
    else MonthDay(date) + span
  }

  /** Every line ends with the span; a day more than one away shows its month and day. */
  lemma BookingTimeShape(dayDiff: int, year: nat, month: nat, day: nat, startTime: string, endTime: string)
    ensures var r := BookingTime(dayDiff, BookingPage.FormatDate(year, month, day), startTime, endTime);
      var span := " " + startTime + "-" + endTime;
      |r| >= |span| && r[|r| - |span|..] == span
      && (dayDiff !in {-1, 0, 1} ==> r == Pad2(month) + "-" + Pad2(day) + span)
  {
    MonthDayOfKey(year, month, day);
  }

  // ---------------------------------------------------------------------
  // Logging out and the language.

  datatype Shown = Shown(userInfo: Value, bookings: seq<MockApi.Booking>, cardCount: nat)

  /** `logout`: on confirmation and a successful request, everything shown is cleared. */
  function Logout(s: Shown, confirmed: bool, requestOk: bool): (r: Shown)
  {
    if confirmed && requestOk then Shown(Null, [], 0) else s
  }

  lemma LogoutClears(s: Shown, confirmed: bool, requestOk: bool)
    ensures confirmed && requestOk ==> Logout(s, confirmed, requestOk) == Shown(Null, [], 0)
    ensures !(confirmed && requestOk) ==> Logout(s, confirmed, requestOk) == s
    ensures Logout(Logout(s, confirmed, requestOk), confirmed, requestOk) == Logout(s, confirmed, requestOk)
  {
  }

  /** The profile's `switchLanguage`: Chinese to English, anything else to Chinese. */
  function SwitchLanguage(r: I18n.Registry, st: Storage, c: I18n.Catalog): (o: I18n.SetOutcome)
  {
    I18n.SetLanguage(r, st, c, if r.language == "zh-CN" then "en" else "zh-CN")
  }

  /** The profile toggles the registry exactly as the language-switch button does. */
  lemma SameAsButton(r: I18n.Registry, st: Storage, c: I18n.Catalog)
    ensures SwitchLanguage(r, st, c).registry == LanguageSwitch.Click(r, st, c).registry
    ensures SwitchLanguage(r, st, c).storage == LanguageSwitch.Click(r, st, c).storage
    ensures SwitchLanguage(r, st, c).accepted
  {
  }
}
