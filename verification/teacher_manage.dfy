/**
 * The admin teacher list: the guarded load with the store, status and
 * keyword filters, the refresh after a filter or search changes, the
 * status switch behind its confirmation, and the captions of the page.
 */
module TeacherManage {
  import opened Wrappers
  import opened JsValue
  import opened Paging
  import opened JsArray
  import CourseList
  import AdminFilters
  import MockApi
  import DanceTypes
  import Modal

  /** The list part of the page's data: the loaded teachers, the filters and the search text. */
  datatype List = List(pager: Pager<MockApi.AdminTeacher>, filters: AdminFilters.Filters, keyword: string)

  /** The query of `loadTeachers`: page and limit, the filters that are on, and the keyword when there is one. */
  function Query(page: int, limit: int, l: List): (ps: Params)
  {
    AdminFilters.Query(page, limit, l.filters, "keyword", l.keyword)
  }

  /** `loadTeachers(reset)`: refused while a load is in flight, else the query for the page asked for and the flag set. */
  function BeginLoad(l: List, reset: bool, limit: int): (r: Option<(Params, List)>)
  {
    match Begin(l.pager, reset)
    case None => None
    case Some((q, p)) => Some((Query(q, limit, l), l.(pager := p)))
  }

  /** `refreshTeachers`: page 1 and `hasMore` set, then a reset load. */
  function Refresh(l: List, limit: int): (r: (List, Option<(Params, List)>))
  {
    var t := l.(pager := l.pager.(page := 1, hasMore := true));
    (t, BeginLoad(t, true, limit))
  }

  /** A refresh while no load runs asks for page 1 with the current filters; one during a load sends nothing. */
  lemma RefreshAsksFirstPage(l: List, limit: int)
    ensures !l.pager.loading ==> Refresh(l, limit).1 == Some((Query(1, limit, l), Refresh(l, limit).0.(pager := Refresh(l, limit).0.pager.(loading := true))))
    ensures l.pager.loading ==> Refresh(l, limit).1.None?
  {
  }

  /** `selectFilterOption` for the store or the status filter, then a refresh. */
  function SelectStore(l: List, storeId: string, limit: int): (r: (List, Option<(Params, List)>))
  {
    Refresh(l.(filters := l.filters.(storeId := storeId)), limit)
  }

  function SelectStatus(l: List, status: string, limit: int): (r: (List, Option<(Params, List)>))
  {
    Refresh(l.(filters := l.filters.(status := status)), limit)
  }

  /** `onSearchClear`: the search text emptied, then a refresh. */
  function SearchClear(l: List, limit: int): (r: (List, Option<(Params, List)>))
  {
    Refresh(l.(keyword := ""), limit)
  }

  /** After clearing the search, the query carries no keyword; the filters stay as they were. */
  lemma SearchClearDropsKeyword(l: List, limit: int)
    requires !l.pager.loading
    ensures SearchClear(l, limit).1.Some?
    ensures Get(SearchClear(l, limit).1.value.0, "keyword").None?
    ensures SearchClear(l, limit).0.filters == l.filters
  {
    AdminFilters.QueryCarriesActiveFilters(1, limit, l.filters, "keyword", "");
  }

  /** The filter parameters as the mock server reads them: a parameter never sent reads as empty. */
  function ServerQuery(ps: Params): (q: MockApi.TeacherQuery)
  {
    MockApi.TeacherQuery(Text(ps, "storeId"), Text(ps, "status"), Text(ps, "keyword"))
  }

  /** A string parameter's text, or `''` when it was not sent. */
  function Text(ps: Params, key: string): (s: string)
  {
    match Get(ps, key)
    case Some(Str(s)) => s
    case _ => ""
  }

  /**
   * The server filters by exactly the page's filters: a store or status of
   * `'all'` is not sent and not applied, and the keyword applies when it is
   * typed.
   */
  lemma ServerSeesPageFilters(ts: seq<MockApi.AdminTeacher>, page: int, limit: int, l: List)
    ensures MockApi.FilterAdminTeachers(ts, Some(ServerQuery(Query(page, limit, l))))
      == MockApi.FilterAdminTeachers(ts, Some(MockApi.TeacherQuery(l.filters.storeId, l.filters.status, l.keyword)))
  {
    AdminFilters.QueryCarriesActiveFilters(page, limit, l.filters, "keyword", l.keyword);
    var q := ServerQuery(Query(page, limit, l));
    assert q.storeId == (if l.filters.storeId != "all" then l.filters.storeId else "");
    assert q.status == (if l.filters.status != "all" then l.filters.status else "");
    assert q.keyword == l.keyword;
    var q2 := MockApi.TeacherQuery(l.filters.storeId, l.filters.status, l.keyword);
    MockApi.AdminFilterIsOneFilter(ts, q);
    MockApi.AdminFilterIsOneFilter(ts, q2);
    FilterCongruence(ts, (t: MockApi.AdminTeacher) => MockApi.MatchesAll(q, t), (t: MockApi.AdminTeacher) => MockApi.MatchesAll(q2, t));
  }

  /** Teachers the page lists: those meeting every filter that is on, in the server's order. */
  lemma ListedTeachers(ts: seq<MockApi.AdminTeacher>, page: int, limit: int, l: List, t: MockApi.AdminTeacher)
    ensures t in MockApi.FilterAdminTeachers(ts, Some(ServerQuery(Query(page, limit, l))))
      <==> t in ts && MockApi.MatchesAll(MockApi.TeacherQuery(l.filters.storeId, l.filters.status, l.keyword), t)
  {
    ServerSeesPageFilters(ts, page, limit, l);
    MockApi.AdminFilterMembers(ts, MockApi.TeacherQuery(l.filters.storeId, l.filters.status, l.keyword), t);
  }

  // ---------------------------------------------------------------------
  // The status switch.

  /** `updateTeacherStatus`: an active teacher is switched off, anyone else on. */
  function NewStatus(current: string): (s: string)
  {
    if current == "active" then "inactive" else "active"
  }

  /** The verb of the confirmation and of the toast. */
  function StatusVerb(newStatus: string): (s: string)
  {
    if newStatus == "active" then "启用" else "禁用"
  }

  /** The request the switch sends: the new status, only when the confirmation is answered yes. */
  function UpdateStatus(current: string, confirmed: bool): (r: Option<string>)
  {
    var answer := Modal.ShowModal(confirmed).answer;
    if !Truthy(answer) then None else Some(NewStatus(current))
  }

  /** The switch goes out only on a yes, always lands on a known status, undoes itself, and its verb is the new status's caption. */
  lemma StatusSwitch(current: string, confirmed: bool)
    ensures UpdateStatus(current, confirmed).Some? <==> confirmed
    ensures NewStatus(current) in {"active", "inactive"}
    ensures current in {"active", "inactive"} ==> NewStatus(NewStatus(current)) == current
    ensures NewStatus(current) != current || current !in {"active", "inactive"}
    ensures StatusVerb(NewStatus(current)) == StatusText(NewStatus(current))
  {
  }

  // ---------------------------------------------------------------------
  // Captions.

  function StatusText(status: string): (r: string)
  {
    match status
    case "active" => "启用"
    case "inactive" => "禁用"
    case _ => "未知"
  }

  function StatusClass(status: string): (r: string)
  {
    match status
    case "active" => "status-success"
    case "inactive" => "status-warning"
    case _ => "status-default"
  }

  /** The status choices of the filter menu. */
  const StatusChoices: seq<CourseList.Opt> := [CourseList.Opt("active", "启用"), CourseList.Opt("inactive", "禁用")]

  /** Every status outside the two has the unknown caption and the default style; the menu's captions are the list's. */
  lemma StatusCaptions(status: string)
    ensures StatusText(status) == "未知" <==> StatusClass(status) == "status-default"
    ensures StatusText(status) == "未知" <==> status !in {"active", "inactive"}
    ensures status in {"active", "inactive"} ==> AdminFilters.Display(AdminFilters.AllStatuses, StatusChoices, status) == StatusText(status)
  {
    CourseList.CaptionOfFirst(StatusChoices, status, AdminFilters.AllStatuses);
    assert CourseList.FirstSelecting(StatusChoices, "active", 0);
    assert CourseList.FirstSelecting(StatusChoices, "inactive", 1);
  }

  /** `getFilterOptions(kind)`. */
  function FilterOptions(kind: string, stores: seq<AdminFilters.Store>): (r: seq<CourseList.Opt>)
  {
    match kind
    case "storeId" => AdminFilters.StoreMenu(stores)
    case "status" => AdminFilters.Menu(AdminFilters.AllStatuses, StatusChoices)
    case _ => []
  }

  /** `getFilterDisplayText(kind)`. */
  function FilterDisplayText(kind: string, f: AdminFilters.Filters, stores: seq<AdminFilters.Store>): (r: string)
  {
    match kind
    case "storeId" => AdminFilters.StoreDisplay(stores, f.storeId)
    case "status" => AdminFilters.Display(AdminFilters.AllStatuses, StatusChoices, f.status)
    case _ => "全部"
  }

  /** After picking entry `i` of a menu, the filter button shows that entry's caption; other kinds show `'全部'` and offer nothing. */
  lemma DisplayShowsPickedOption(kind: string, f: AdminFilters.Filters, stores: seq<AdminFilters.Store>, i: int)
    requires kind == "storeId" ==> CourseList.FirstSelecting(FilterOptions(kind, stores), f.storeId, i)
    requires kind == "status" ==> CourseList.FirstSelecting(FilterOptions(kind, stores), f.status, i)
    ensures kind in {"storeId", "status"} ==> FilterDisplayText(kind, f, stores) == FilterOptions(kind, stores)[i].caption
    ensures kind !in {"storeId", "status"} ==> FilterDisplayText(kind, f, stores) == "全部" && FilterOptions(kind, stores) == []
  {
    if kind == "storeId" {
      AdminFilters.StoreDisplayIsMenuCaption(stores, f.storeId);
      AdminFilters.DisplayShowsPicked(AdminFilters.AllStores, AdminFilters.StoreChoices(stores), f.storeId, i);
    } else if kind == "status" {
      AdminFilters.DisplayShowsPicked(AdminFilters.AllStatuses, StatusChoices, f.status, i);
    }
  }

  /** `formatDanceTypes`: the admin names, unknown ids as they are, joined by `' / '`. */
  function FormatDanceTypes(ids: seq<string>): (r: string)
  {
    DanceTypes.Format(DanceTypes.ManageNames, ids, " / ")
  }

  /** Every type gets its own segment, and popping is named here though not on the public teacher list. */
  lemma FormatShowsEveryType(ids: seq<string>)
    requires |ids| > 0 && forall i :: 0 <= i < |ids| ==> '/' !in ids[i]
    ensures DanceTypes.Occurrences(FormatDanceTypes(ids), '/') == |ids| - 1
    ensures FormatDanceTypes(["popping"]) == "Popping"
  {
    DanceTypes.OneSlashBetweenTypes(DanceTypes.ManageNames, ids);
    assert DanceTypes.NamesOf(DanceTypes.ManageNames, ["popping"]) == ["Popping"];
  }
}
