/**
 * The mock server inside `utils/api-complete.js`: which URLs it answers,
 * how a `switch` over the URL picks the answer, the pagination every list
 * route shares, and the admin-teacher and booking filters.
 */
module MockApi {
  import opened Wrappers
  import opened Text
  import opened JsArray

  // ---------------------------------------------------------------------
  // Routing.

  /** `get` and `post` answer these URLs from the mock data instead of the network. */
  predicate IsMockUrl(url: string) {
    StartsWith(url, "/api/") || StartsWith(url, "/auth/")
  }

  /** Where a request ends up. */
  datatype Transport = Mock(url: string) | Network(url: string)

  /** The routing shared by `get` and `post`. */
  function Route(url: string): (t: Transport)
    ensures t.Mock? <==> IsMockUrl(url)
    ensures t.url == url
  {
    if IsMockUrl(url) then Mock(url) else Network(url)
  }

  /** One group of `case` labels that share a body, and the answer that body gives. */
  datatype Case<A> = Case(labels: seq<string>, answer: A)

  /** A `switch (url)` over groups of cases: the first group with a matching label answers. */
  function Dispatch<A>(cases: seq<Case<A>>, url: string, default: A): (a: A)
    decreases |cases|
  {
    if cases == [] then default
    else if url in cases[0].labels then cases[0].answer
    else Dispatch(cases[1..], url, default)
  }

  /** The first group containing the URL answers; a URL in no group gets the default. */
  lemma {:induction false} DispatchFirstMatch<A>(cases: seq<Case<A>>, url: string, default: A, i: nat)
    requires i < |cases| && url in cases[i].labels
    requires forall j :: 0 <= j < i ==> url !in cases[j].labels
    ensures Dispatch(cases, url, default) == cases[i].answer
    decreases i
  {
    if i > 0 {
      DispatchFirstMatch(cases[1..], url, default, i - 1);
    }
  }

  /** A URL that no case names gets the default answer. */
  lemma {:induction false} DispatchDefault<A>(cases: seq<Case<A>>, url: string, default: A)
    requires forall j :: 0 <= j < |cases| ==> url !in cases[j].labels
    ensures Dispatch(cases, url, default) == default
    decreases |cases|
  {
    if cases != [] {
      DispatchDefault(cases[1..], url, default);
    }
  }

  /** The answers of the teacher-detail routes, by the name of the teacher returned. */
  datatype Answer = TeacherRecord(name: string) | EmptySuccess

  /** The teacher-detail cases, in source order: a `t`-prefixed group first, then groups pairing both spellings. */
  const TeacherDetailCases: seq<Case<Answer>> := [
    Case(["/api/teachers/t1"], TeacherRecord("BOA")),
    Case(["/api/teachers/t2"], TeacherRecord("QURY")),
    Case(["/api/teachers/1", "/api/teachers/t1"], TeacherRecord("张教练"))
  ]

  /** The URL `/api/teachers/t1` reaches the first group; its second label further down is unreachable. */
  lemma TeacherT1IsBoa()
    ensures Dispatch(TeacherDetailCases, "/api/teachers/t1", EmptySuccess) == TeacherRecord("BOA")
    ensures Dispatch(TeacherDetailCases, "/api/teachers/1", EmptySuccess) == TeacherRecord("张教练")
  {
    assert "/api/teachers/t1" in TeacherDetailCases[0].labels;
    assert "/api/teachers/1" !in TeacherDetailCases[0].labels;
    assert "/api/teachers/1" !in TeacherDetailCases[1].labels;
  }

  /** The teacher id in a `/api/teachers/<id>/courses` URL, with a leading `t` dropped. */
  function NormaliseTeacherId(id: string): (r: string)
    ensures StartsWith(id, "t") ==> r == id[1..]
    ensures !StartsWith(id, "t") ==> r == id
  {
    if StartsWith(id, "t") then id[1..] else id
  }

  /** The id is the fourth `/`-separated piece of the URL. */
  function CourseRouteTeacherId(url: string): (id: Option<string>)
  {
    var parts := Split(url, '/');
    if |parts| > 3 then Some(NormaliseTeacherId(parts[3])) else None
  }

  /** Both spellings of a teacher id name the same teacher: `t3` and `3` normalise alike. */
  lemma PrefixedIdsAgree(id: string)
    requires !StartsWith(id, "t")
    ensures NormaliseTeacherId("t" + id) == NormaliseTeacherId(id) == id
  {
    assert ("t" + id)[..1] == "t";
    assert ("t" + id)[1..] == id;
  }

  // ---------------------------------------------------------------------
  // Pagination.

  /** One page of a list answer. */
  datatype Page<T> = Page(list: seq<T>, total: nat, page: int, limit: int, hasMore: bool)

  /** `params.page ? params.page : 1` and `params.limit ? params.limit : 10`, with 0 and a missing value both falsy. */
  function OrDefault(v: Option<int>, default: int): (r: int)
    ensures v.Some? && v.value != 0 ==> r == v.value
    ensures v.None? || v.value == 0 ==> r == default
  {
    if v.Some? && v.value != 0 then v.value else default
  }

  /** The pagination shared by every list route. */
  function Paginate<T>(items: seq<T>, page: Option<int>, limit: Option<int>): (p: Page<T>)
    ensures p.total == |items| && p.page == OrDefault(page, 1) && p.limit == OrDefault(limit, 10)
  {
    var pg := OrDefault(page, 1);
    var lim := OrDefault(limit, 10);
    var start := (pg - 1) * lim;
    var end := start + lim;
    Page(Slice(items, start, end), |items|, pg, lim, end < |items|)
  }

  /** For positive page and limit, a page is the clipped window `[(page-1)*limit, page*limit)` and `hasMore` says whether anything lies beyond it. */
  lemma PageWindow<T>(items: seq<T>, page: nat, limit: nat)
    requires page >= 1 && limit >= 1
    ensures var p := Paginate(items, Some(page), Some(limit));
      var lo := PageStart(page, limit);
      var hi := lo + limit;
      && (lo <= |items| ==> p.list == items[lo..if hi <= |items| then hi else |items|])
      && (|items| <= lo ==> p.list == [])
      && (p.hasMore <==> hi < |items|)
  {
    var lo := PageStart(page, limit);
    SliceNonNegative(items, lo, lo + limit);
  }

  /** The index of a page's first item; the page ends `limit` items later, at `page * limit`. */
  function PageStart(page: nat, limit: nat): (lo: nat)
    requires page >= 1
    ensures lo + limit == page * limit
  {
    (page - 1) * limit
  }

  /** Without page and limit the first ten items are returned. */
  lemma DefaultPage<T>(items: seq<T>)
    ensures var p := Paginate(items, None, None);
      p.page == 1 && p.limit == 10 && p.list == items[..if 10 <= |items| then 10 else |items|]
  {
    PageWindow(items, 1, 10);
  }

  /** Pages 1 to n, concatenated. */
  function FirstPages<T>(items: seq<T>, limit: nat, n: nat): seq<T>
    requires limit >= 1
  {
    if n == 0 then [] else FirstPages(items, limit, n - 1) + Paginate(items, Some(n), Some(limit)).list
  }

  /** The n-th page starts where the (n-1)-th ends. */
  lemma PageBounds(n: nat, limit: nat)
    requires n >= 1
    ensures n * limit == (n - 1) * limit + limit
  {
  }

  /** The smaller of two numbers. */
  function Min(a: nat, b: nat): nat {
    if a <= b then a else b
  }

  /** Reading pages 1, 2, ..., n in turn yields the first n*limit items, clipped: nothing is skipped or repeated. */
  lemma {:induction false} PagesConcatenate<T>(items: seq<T>, limit: nat, n: nat)
    requires limit >= 1
    ensures FirstPages(items, limit, n) == items[..Min(n * limit, |items|)]
  {
    if n > 0 {
      var lo := (n - 1) * limit;
      var hi := n * limit;
      PageBounds(n, limit);
      PagesConcatenate(items, limit, n - 1);
      var prev := FirstPages(items, limit, n - 1);
      var list := Paginate(items, Some(n), Some(limit)).list;
      PageWindow(items, n, limit);
      assert FirstPages(items, limit, n) == prev + list;
      if lo <= |items| {
        var m := Min(hi, |items|);
        assert prev == items[..lo];
        assert list == items[lo..m];
        PrefixJoin(items, lo, m);
      } else {
        assert list == [];
        assert Min(hi, |items|) == |items| == Min(lo, |items|);
      }
    }
  }

  /** A prefix followed by the slice after it is the longer prefix. */
  lemma PrefixJoin<T>(s: seq<T>, lo: nat, m: nat)
    requires lo <= m <= |s|
    ensures s[..lo] + s[lo..m] == s[..m]
  {
  }

  /** The last page read is the one whose `hasMore` is false. */
  lemma {:induction false} NoMoreMeansAllRead<T>(items: seq<T>, limit: nat, n: nat)
    requires limit >= 1 && n >= 1
    requires !Paginate(items, Some(n), Some(limit)).hasMore
    ensures FirstPages(items, limit, n) == items
  {
    PagesConcatenate(items, limit, n);
    PageWindow(items, n, limit);
  }

  // ---------------------------------------------------------------------
  // Filters.

  /** The admin teacher record fields the filters read. */
  datatype AdminTeacher = AdminTeacher(name: string, phone: string, stores: seq<string>, status: string)

  /** The filter parameters; the empty string stands for a missing (falsy) value. */
  datatype TeacherQuery = TeacherQuery(storeId: string, status: string, keyword: string)

  /** A filter parameter is active when it is truthy and not `'all'`. */
  predicate Active(v: string) {
    v != "" && v != "all"
  }

  predicate StoreMatches(q: TeacherQuery, t: AdminTeacher) {
    !Active(q.storeId) || q.storeId in t.stores
  }

  predicate StatusMatches(q: TeacherQuery, t: AdminTeacher) {
    !Active(q.status) || t.status == q.status
  }

  /** The keyword is matched against the lower-cased name, and against the phone as it is. */
  predicate KeywordMatches(q: TeacherQuery, t: AdminTeacher) {
    q.keyword == "" || Contains(ToLower(t.name), ToLower(q.keyword)) || Contains(t.phone, ToLower(q.keyword))
  }

  /** The three filters of the `/api/admin/teachers` route, applied in turn; no params at all skips them. */
  function FilterAdminTeachers(ts: seq<AdminTeacher>, q: Option<TeacherQuery>): (r: seq<AdminTeacher>)
  {
    if q.None? then ts
    else
      var q := q.value;
      var a := if Active(q.storeId) then Filter(ts, (t: AdminTeacher) => StoreMatches(q, t)) else ts;
      var b := if Active(q.status) then Filter(a, (t: AdminTeacher) => StatusMatches(q, t)) else a;
      if q.keyword != "" then Filter(b, (t: AdminTeacher) => KeywordMatches(q, t)) else b
  }

  /** All three conditions at once. */
  predicate MatchesAll(q: TeacherQuery, t: AdminTeacher) {
    StoreMatches(q, t) && StatusMatches(q, t) && KeywordMatches(q, t)
  }

  /** The chained filters keep, in order, exactly the teachers meeting every active condition. */
  lemma AdminFilterIsOneFilter(ts: seq<AdminTeacher>, q: TeacherQuery)
    ensures FilterAdminTeachers(ts, Some(q)) == Filter(ts, (t: AdminTeacher) => MatchesAll(q, t))
  {
    var p1 := (t: AdminTeacher) => StoreMatches(q, t);
    var p2 := (t: AdminTeacher) => StatusMatches(q, t);
    var p3 := (t: AdminTeacher) => KeywordMatches(q, t);
    var a := Filter(ts, p1);
    var b := Filter(a, p2);
    StageIsFilter(ts, Active(q.storeId), p1);
    StageIsFilter(a, Active(q.status), p2);
    StageIsFilter(b, q.keyword != "", p3);
    var p12 := (t: AdminTeacher) => p1(t) && p2(t);
    FilterFilter(ts, p1, p2, p12);
    FilterFilter(ts, p12, p3, (t: AdminTeacher) => MatchesAll(q, t));
  }

  /** A filter stage that is switched off keeps everything, as its filter would when every element passes. */
  lemma StageIsFilter<T>(xs: seq<T>, on: bool, p: T -> bool)
    requires !on ==> forall i :: 0 <= i < |xs| ==> p(xs[i])
    ensures (if on then Filter(xs, p) else xs) == Filter(xs, p)
  {
    if !on {
      FilterAll(xs, p);
    }
  }

  /** Every teacher kept meets every active condition, and every teacher meeting them is kept. */
  lemma AdminFilterMembers(ts: seq<AdminTeacher>, q: TeacherQuery, t: AdminTeacher)
    ensures t in FilterAdminTeachers(ts, Some(q)) <==> t in ts && MatchesAll(q, t)
  {
    AdminFilterIsOneFilter(ts, q);
    FilterMembers(ts, (t: AdminTeacher) => MatchesAll(q, t), t);
  }

  /** A booking's status, the only field the bookings filter reads. */
  datatype Booking = Booking(bookingId: string, status: string)

  /** The `/api/user/bookings` filter: bookings with the requested status, unless it is missing or `'all'`. */
  function FilterBookings(bs: seq<Booking>, status: string): (r: seq<Booking>)
  {
    if Active(status) then Filter(bs, (b: Booking) => b.status == status) else bs
  }

  /** The bookings filter keeps exactly the bookings with the requested status, and all of them for `'all'`. */
  lemma BookingFilterMembers(bs: seq<Booking>, status: string, b: Booking)
    ensures Active(status) ==> (b in FilterBookings(bs, status) <==> b in bs && b.status == status)
    ensures !Active(status) ==> FilterBookings(bs, status) == bs
  {
    if Active(status) {
      FilterMembers(bs, (x: Booking) => x.status == status, b);
    }
  }

  // ---------------------------------------------------------------------
  // The mock server's admin methods.

  /** The methods of the mock server's `adminApi`; an admin page that calls any other name calls `undefined`. */
  const AdminApiMethods: set<string> :=
    {"adminLogin", "getAdminInfo", "getCourseList", "getStatistics", "getSystemConfig", "updateSystemConfig"}

  /**
   * Whether `adminApi.<name>(...)` answers: only a method the mock server
   * defines can, and then exactly when its request succeeds. Calling a
   * missing method throws a `TypeError` inside the page's `try`, so the
   * page takes its `catch` branch as it would for a failed request.
   */
  function AdminCallAnswers(name: string, requestOk: bool): (ok: bool)
  {
    name in AdminApiMethods && requestOk
  }

  /** The admin pages' sends, loads and updates name methods the mock server lacks; its course list is there. */
  lemma MissingAdminMethods(requestOk: bool)
    ensures !AdminCallAnswers("sendNotification", requestOk)
    ensures !AdminCallAnswers("getSmsCode", requestOk)
    ensures !AdminCallAnswers("getStudentList", requestOk)
    ensures !AdminCallAnswers("updateStudentClasses", requestOk)
    ensures !AdminCallAnswers("deleteCourse", requestOk) && !AdminCallAnswers("updateCourse", requestOk)
    ensures AdminCallAnswers("getCourseList", requestOk) == requestOk
  {
  }
}
