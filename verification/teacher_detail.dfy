/**
 * The teacher detail page: the teacher's course list, loaded page by page
 * and merged, the `loadMore` gate, the remaining-places label, the dance
 * types joined for display and the difficulty stars.
 *
 * As written the page's data object reads an `i18n` that is never declared,
 * so loading the page throws and it never attaches; the members below model
 * its methods as they run once that name is declared.
 */
module TeacherDetail {
  import opened Wrappers
  import opened JsValue
  import opened Text
  import opened Paging
  import Capacity
  import CourseDetail
  import Http

  /** The query of `loadTeacherCourses`: only the page and the limit. */
  function CoursesQuery<T>(s: Pager<T>, reset: bool, limit: int): (ps: Params)
    ensures ps == PageParams(Queried(s, reset), limit)
  {
    PageParams(Queried(s, reset), limit)
  }

  /** `loadTeacherCourses`: the merge every list page does; a failed request changes nothing. */
  function LoadTeacherCourses<T>(s: Pager<T>, reset: bool, response: Option<Batch<T>>): (r: Pager<T>)
  {
    Paging.Load(s, reset, response)
  }

  /** A reset load replaces the list, a later one appends; the counter moves past the page asked for. */
  lemma LoadMerges<T>(s: Pager<T>, reset: bool, b: Batch<T>)
    ensures var r := LoadTeacherCourses(s, reset, Some(b));
      (reset ==> r.items == b.list && r.page == 2)
      && (!reset ==> r.items == s.items + b.list && r.page == s.page + 1 && r.items[..|s.items|] == s.items)
      && r.hasMore == b.hasMore
  {
  }

  /**
   * `loadTeacherCourses` behind the request module: only a promise that
   * resolves reaches the merge, its answer read as the batch `b`; a rejected
   * one is caught and logged, and one that never settles leaves the list as
   * it is.
   */
  function LoadThrough<T>(s: Pager<T>, reset: bool, settled: Http.Settlement, b: Batch<T>): (r: Pager<T>)
  {
    LoadTeacherCourses(s, reset, if settled.Resolved? then Some(b) else None)
  }

  /**
   * As written, the request module never resolves, so no answer of the
   * server ever reaches the teacher's course list; with the settling the
   * module intends, an accepted answer merges as LoadMerges states.
   */
  lemma LoadNeverMergesAsWritten<T>(s: Pager<T>, reset: bool, resp: Http.Response, b: Batch<T>)
    ensures LoadThrough(s, reset, Http.SettleAsWritten(resp), b) == s
    ensures Http.Intercept(resp).Accept? ==> LoadThrough(s, reset, Http.Settle(resp), b) == LoadTeacherCourses(s, reset, Some(b))
  {
    Http.AsWrittenNeverResolves(resp);
  }

  /** `loadMore`: the page to load next, only when there is more and nothing is loading. */
  function LoadMore<T>(s: Pager<T>): (r: Option<Params>)
  {
    match Paging.LoadMore(s)
    case None => None
    case Some(_) => Some(CoursesQuery(s, false, 10))
  }

  /** `loadMore` never asks again once `hasMore` is false, and asks for the counter's page otherwise. */
  lemma LoadMoreGate<T>(s: Pager<T>)
    ensures LoadMore(s).Some? <==> s.hasMore && !s.loading
    ensures LoadMore(s).Some? ==> LoadMore(s).value[0] == ("page", Num(s.page))
  {
  }

  function RemainingText(capacity: int, booked: int): (r: string)
  {
    Capacity.RemainingText("仅剩", capacity, booked)
  }

  function RemainingClass(capacity: int, booked: int): (r: string)
  {
    Capacity.RemainingClass(capacity, booked)
  }

  /** Label and style agree: the slash form goes with the small style. */
  lemma LabelMatchesStyle(capacity: int, booked: int)
    ensures '/' in RemainingText(capacity, booked) <==> RemainingClass(capacity, booked) == "text-small"
  {
    Capacity.TextAgreesWithClass("仅剩", capacity, booked);
  }

  /** `getDanceTypesText`. */
  function DanceTypesText(types: seq<string>): (r: string)
  {
    Join(types, "、")
  }

  // ---------------------------------------------------------------------
  // Booking from the teacher's course list.

  /** What `wx.showModal` resolves to: an object whose `confirm` field holds the user's answer. */
  function ModalAnswer(confirm: bool): (v: Value)
    ensures Truthy(v) && Field(v, "confirm") == Bool(confirm)
  {
    Obj(map["confirm" := Bool(confirm)])
  }

  /** `bookCourse` as written: it stops only on a falsy modal answer, and the answer object is never falsy. */
  function BookAsWritten(isLogin: bool, answer: Value): (requested: bool)
  {
    isLogin && Truthy(answer)
  }

  /** Pressing "cancel" in the confirmation still sends the booking request. */
  lemma CancelStillBooks()
    ensures BookAsWritten(true, ModalAnswer(false))
  {
  }

  /** `bookCourse` as intended: the request goes out only for a logged-in user who pressed "confirm". */
  function Book(isLogin: bool, answer: Value): (requested: bool)
  {
    isLogin && Truthy(Field(answer, "confirm"))
  }

  /** The intended gate books exactly on confirmation, never when cancelled, and never more often than the written one. */
  lemma BookOnlyOnConfirm(isLogin: bool, confirm: bool)
    ensures Book(isLogin, ModalAnswer(confirm)) <==> isLogin && confirm
    ensures Book(isLogin, ModalAnswer(confirm)) ==> BookAsWritten(isLogin, ModalAnswer(confirm))
    ensures !isLogin ==> !BookAsWritten(isLogin, ModalAnswer(confirm))
  {
  }

  /** After a successful booking: back to page 1 with `hasMore` set, and the reset query for page 1. */
  function AfterBooking<T>(s: Pager<T>, limit: int): (r: (Pager<T>, Params))
  {
    var t := s.(page := 1, hasMore := true);
    (t, CoursesQuery(t, true, limit))
  }

  /** The reload after a booking asks for page 1 and replaces the list with its answer. */
  lemma AfterBookingReloads<T>(s: Pager<T>, limit: int, b: Batch<T>)
    ensures AfterBooking(s, limit).1 == PageParams(1, limit)
    ensures LoadTeacherCourses(AfterBooking(s, limit).0, true, Some(b)).items == b.list
    ensures LoadTeacherCourses(AfterBooking(s, limit).0, true, Some(b)).page == 2
  {
  }

  /** What a booking leaves behind, given how its request settled: only a resolved booking resets the pager and asks for the reload. */
  function BookedThrough<T>(s: Pager<T>, limit: int, settled: Http.Settlement): (r: Option<(Pager<T>, Params)>)
  {
    if settled.Resolved? then Some(AfterBooking(s, limit)) else None
  }

  /** As written, a booking never reaches the reload; with the intended settling, an accepted booking reloads page 1. */
  lemma BookingNeverReloadsAsWritten<T>(s: Pager<T>, limit: int, resp: Http.Response)
    ensures BookedThrough(s, limit, Http.SettleAsWritten(resp)).None?
    ensures Http.Intercept(resp).Accept? ==> BookedThrough(s, limit, Http.Settle(resp)) == Some(AfterBooking(s, limit))
    ensures Http.Intercept(resp).Accept? ==> BookedThrough(s, limit, Http.Settle(resp)).value.1 == PageParams(1, limit)
  {
    Http.AsWrittenNeverResolves(resp);
  }

  /** The detail page's stars are the course page's. */
  function DifficultyStars(difficulty: int): (r: seq<bool>)
    ensures r == CourseDetail.DifficultyStars(difficulty)
  {
    seq(5, i => i < difficulty)
  }
}
