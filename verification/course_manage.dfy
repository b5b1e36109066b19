/**
 * The admin course list: the guarded load with the store, status and date
 * filters, the refresh, and the captions of course statuses and of the
 * filter buttons.
 */
module CourseManage {
  import opened Wrappers
  import opened JsValue
  import opened Paging
  import CourseList
  import AdminFilters

  /** A course as the list shows it: the fields the captions read. */
  datatype Course = Course(courseId: string, status: string)

  /** The list part of the page's data: the loaded courses, the store and status filters and the date (empty when none is chosen). */
  datatype List = List(pager: Pager<Course>, filters: AdminFilters.Filters, date: string)

  /** The query of `loadCourses`: page and limit, the filters that are on, and the date when one is chosen. */
  function Query(page: int, limit: int, l: List): (ps: Params)
  {
    AdminFilters.Query(page, limit, l.filters, "date", l.date)
  }

  /** `loadCourses(reset)`: refused while a load is in flight, else the query and the flag set. */
  function BeginLoad(l: List, reset: bool, limit: int): (r: Option<(Params, List)>)
  {
    match Begin(l.pager, reset)
    case None => None
    case Some((q, p)) => Some((Query(q, limit, l), l.(pager := p)))
  }

  /** The answer merged and the flag cleared; a failed request only clears the flag. */
  function EndLoad(l: List, reset: bool, response: Option<Batch<Course>>): (r: List)
  {
    l.(pager := Finish(l.pager, reset, response))
  }

  /** `refreshCourses`: page 1 and `hasMore` set, then a reset load. */
  function Refresh(l: List, limit: int): (r: (List, Option<(Params, List)>))
  {
    var t := l.(pager := l.pager.(page := 1, hasMore := true));
    (t, BeginLoad(t, true, limit))
  }

  /**
   * A refresh while no load runs asks for page 1 with exactly the filters
   * that are on and the date when one is chosen; its answer replaces the
   * list and the counter moves to page 2.
   */
  lemma RefreshReplacesList(l: List, limit: int, b: Batch<Course>)
    requires !l.pager.loading
    ensures Refresh(l, limit).1.Some?
    ensures var ps := Refresh(l, limit).1.value.0;
      ps[..2] == PageParams(1, limit)
      && (Get(ps, "date").Some? <==> l.date != "")
      && (Get(ps, "status").Some? <==> l.filters.status != "all")
    ensures var after := EndLoad(Refresh(l, limit).1.value.1, true, Some(b));
      after.pager.items == b.list && after.pager.page == 2 && !after.pager.loading
  {
    AdminFilters.QueryCarriesActiveFilters(1, limit, l.filters, "date", l.date);
  }

  /** `loadMore`: a load of the next page when there is more and nothing in flight; it appends. */
  lemma LoadMoreAppends(l: List, limit: int, b: Batch<Course>)
    requires LoadMore(l.pager).Some?
    ensures BeginLoad(l, false, limit).Some?
    ensures BeginLoad(l, false, limit).value.0[..2] == PageParams(l.pager.page, limit)
    ensures EndLoad(BeginLoad(l, false, limit).value.1, false, Some(b)).pager.items == l.pager.items + b.list
  {
    AdminFilters.QueryCarriesActiveFilters(l.pager.page, limit, l.filters, "date", l.date);
  }

  // ---------------------------------------------------------------------
  // Captions.

  function StatusText(status: string): (r: string)
  {
    match status
    case "active" => "进行中"
    case "cancelled" => "已取消"
    case "completed" => "已完成"
    case _ => "未知"
  }

  function StatusClass(status: string): (r: string)
  {
    match status
    case "active" => "status-primary"
    case "cancelled" => "status-warning"
    case "completed" => "status-success"
    case _ => "status-default"
  }

  /** The status choices of the filter menu. */
  const StatusChoices: seq<CourseList.Opt> := [
    CourseList.Opt("active", "进行中"), CourseList.Opt("cancelled", "已取消"), CourseList.Opt("completed", "已完成")]

  /** Unknown statuses, and only they, get `'未知'` and the default style; the menu captions the three statuses as the list does. */
  lemma StatusCaptions(status: string)
    ensures StatusText(status) == "未知" <==> status !in {"active", "cancelled", "completed"}
    ensures StatusClass(status) == "status-default" <==> status !in {"active", "cancelled", "completed"}
    ensures status in {"active", "cancelled", "completed"} ==>
      AdminFilters.Display(AdminFilters.AllStatuses, StatusChoices, status) == StatusText(status)
  {
    CourseList.CaptionOfFirst(StatusChoices, status, AdminFilters.AllStatuses);
    assert CourseList.FirstSelecting(StatusChoices, "active", 0);
    assert CourseList.FirstSelecting(StatusChoices, "cancelled", 1);
    assert CourseList.FirstSelecting(StatusChoices, "completed", 2);
  }

  /** `getFilterOptions(kind)`: the store and status menus; any other kind has none. */
  function FilterOptions(kind: string, stores: seq<AdminFilters.Store>): (r: seq<CourseList.Opt>)
  {
    match kind
    case "storeId" => AdminFilters.StoreMenu(stores)
    case "status" => AdminFilters.Menu(AdminFilters.AllStatuses, StatusChoices)
    case _ => []
  }

  /** `getFilterDisplayText(kind)`: the store, the status, the date or `'选择日期'`, else `'全部'`. */
  function FilterDisplayText(kind: string, l: List, stores: seq<AdminFilters.Store>): (r: string)
  {
    match kind
    case "storeId" => AdminFilters.StoreDisplay(stores, l.filters.storeId)
    case "status" => AdminFilters.Display(AdminFilters.AllStatuses, StatusChoices, l.filters.status)
    case "date" => if l.date != "" then l.date else "选择日期"
    case _ => "全部"
  }

  /**
   * After picking entry `i` of the store or status menu the button shows
   * that entry's caption; the date button shows the date exactly when one
   * is chosen.
   */
  lemma DisplayShowsPickedOption(kind: string, l: List, stores: seq<AdminFilters.Store>, i: int)
    requires kind == "storeId" ==> CourseList.FirstSelecting(FilterOptions(kind, stores), l.filters.storeId, i)
    requires kind == "status" ==> CourseList.FirstSelecting(FilterOptions(kind, stores), l.filters.status, i)
    ensures kind in {"storeId", "status"} ==> FilterDisplayText(kind, l, stores) == FilterOptions(kind, stores)[i].caption
    ensures FilterDisplayText("date", l, stores) == "选择日期" <==> l.date == "" || l.date == "选择日期"
    ensures l.date != "" ==> FilterDisplayText("date", l, stores) == l.date
  {
    if kind == "storeId" {
      AdminFilters.StoreDisplayIsMenuCaption(stores, l.filters.storeId);
      AdminFilters.DisplayShowsPicked(AdminFilters.AllStores, AdminFilters.StoreChoices(stores), l.filters.storeId, i);
    } else if kind == "status" {
      AdminFilters.DisplayShowsPicked(AdminFilters.AllStatuses, StatusChoices, l.filters.status, i);
    }
  }

  /** `getFilterOptions('storeId')` puts `'全部门店'` first and then one entry per store, in order. */
  lemma StoreOptionsShape(stores: seq<AdminFilters.Store>)
    ensures |FilterOptions("storeId", stores)| == |stores| + 1
    ensures FilterOptions("storeId", stores)[0] == CourseList.Opt("all", "全部门店")
    ensures forall i :: 0 <= i < |stores| ==>
      FilterOptions("storeId", stores)[i + 1] == CourseList.Opt(stores[i].storeId, stores[i].name)
  {
    AdminFilters.StoreMenuShape(stores);
  }
}
