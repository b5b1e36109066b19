/**
 * The course list page: the query built from the four filters, the guarded
 * load with its merge, the refresh after a filter changes, the date a date
 * filter stands for, the remaining-places label and the filter bar's
 * captions.
 */
module CourseList {
  import opened Wrappers
  import opened JsValue
  import opened JsArray
  import opened Paging
  import Capacity

  /** The four filters; `'all'` switches one off. */
  datatype Filters = Filters(date: string, danceType: string, teacherId: string, storeId: string)

  const NoFilters := Filters("all", "all", "all", "all")

  /** Today's date, tomorrow's and the first day of this week, as `YYYY-MM-DD`. */
  datatype Dates = Dates(today: string, tomorrow: string, weekStart: string)

  /** `getDateByFilter`: an unrecognised filter stands for no date at all. */
  function DateByFilter(filter: string, d: Dates): (r: string)
    ensures filter !in {"today", "tomorrow", "this_week"} ==> r == ""
  {
    match filter
    case "today" => d.today
    case "tomorrow" => d.tomorrow
    case "this_week" => d.weekStart
    case _ => ""
  }

  /** The query of `loadCourses`: page and limit, then one parameter per filter that is not `'all'`. */
  function Query(page: int, limit: int, f: Filters, d: Dates): (ps: Params)
  {
    var a := PageParams(page, limit);
    var b := SetIf(a, f.date != "all", "date", Str(DateByFilter(f.date, d)));
    var c := SetIf(b, f.danceType != "all", "danceType", Str(f.danceType));
    var e := SetIf(c, f.teacherId != "all", "teacherId", Str(f.teacherId));
    SetIf(e, f.storeId != "all", "storeId", Str(f.storeId))
  }

  /** The query always names the page and the limit first, and carries a filter exactly when it is not `'all'`, with its value. */
  lemma QueryCarriesActiveFilters(page: int, limit: int, f: Filters, d: Dates)
    ensures var ps := Query(page, limit, f, d);
      |ps| >= 2 && ps[0] == ("page", Num(page)) && ps[1] == ("limit", Num(limit))
      && (Get(ps, "date").Some? <==> f.date != "all")
      && (Get(ps, "danceType").Some? <==> f.danceType != "all")
      && (Get(ps, "teacherId").Some? <==> f.teacherId != "all")
      && (Get(ps, "storeId").Some? <==> f.storeId != "all")
      && (f.date != "all" ==> Get(ps, "date") == Some(Str(DateByFilter(f.date, d))))
      && (f.danceType != "all" ==> Get(ps, "danceType") == Some(Str(f.danceType)))
      && (f.teacherId != "all" ==> Get(ps, "teacherId") == Some(Str(f.teacherId)))
      && (f.storeId != "all" ==> Get(ps, "storeId") == Some(Str(f.storeId)))
  {
    QueryPrefix(page, limit, f, d);
    QueryKey(page, limit, f, d, 0);
    QueryKey(page, limit, f, d, 1);
    QueryKey(page, limit, f, d, 2);
    QueryKey(page, limit, f, d, 3);
  }

  /** The query starts with the page and the limit. */
  lemma QueryPrefix(page: int, limit: int, f: Filters, d: Dates)
    ensures |Query(page, limit, f, d)| >= 2 && Query(page, limit, f, d)[..2] == PageParams(page, limit)
  {
    var a := PageParams(page, limit);
    var b := SetIf(a, f.date != "all", "date", Str(DateByFilter(f.date, d)));
    var c := SetIf(b, f.danceType != "all", "danceType", Str(f.danceType));
    var e := SetIf(c, f.teacherId != "all", "teacherId", Str(f.teacherId));
    var ps := SetIf(e, f.storeId != "all", "storeId", Str(f.storeId));
    assert ps[..|e|] == e && e[..|c|] == c && c[..|b|] == b && b[..|a|] == a;
    assert ps[..2] == e[..2] == c[..2] == b[..2] == a;
  }

  /** The query's filter keys, in the order they are set, with the filter and value of each. */
  function QueryKeys(f: Filters, d: Dates): (ks: seq<(string, bool, Value)>)
  {
    [("date", f.date != "all", Str(DateByFilter(f.date, d))),
     ("danceType", f.danceType != "all", Str(f.danceType)),
     ("teacherId", f.teacherId != "all", Str(f.teacherId)),
     ("storeId", f.storeId != "all", Str(f.storeId))]
  }

  /** The `j`-th filter is read back from the query exactly when it is on, with its value. */
  lemma QueryKey(page: int, limit: int, f: Filters, d: Dates, j: nat)
    requires j < 4
    ensures var k := QueryKeys(f, d)[j];
      Get(Query(page, limit, f, d), k.0) == if k.1 then Some(k.2) else None
  {
    var ks := QueryKeys(f, d);
    var a := PageParams(page, limit);
    var b := SetIf(a, ks[0].1, ks[0].0, ks[0].2);
    var c := SetIf(b, ks[1].1, ks[1].0, ks[1].2);
    var e := SetIf(c, ks[2].1, ks[2].0, ks[2].2);
    var ps := SetIf(e, ks[3].1, ks[3].0, ks[3].2);
    assert ps == Query(page, limit, f, d);
    var key := ks[j].0;
    assert Keys(a) == ["page", "limit"];
    assert Get(a, key) == None;
    if j == 0 {
      GetStep(a, ks[0].1, key, ks[0].2);
      GetKept(b, ks[1].1, ks[1].0, ks[1].2, key);
      GetKept(c, ks[2].1, ks[2].0, ks[2].2, key);
      GetKept(e, ks[3].1, ks[3].0, ks[3].2, key);
    } else if j == 1 {
      GetKept(a, ks[0].1, ks[0].0, ks[0].2, key);
      GetStep(b, ks[1].1, key, ks[1].2);
      GetKept(c, ks[2].1, ks[2].0, ks[2].2, key);
      GetKept(e, ks[3].1, ks[3].0, ks[3].2, key);
    } else if j == 2 {
      GetKept(a, ks[0].1, ks[0].0, ks[0].2, key);
      GetKept(b, ks[1].1, ks[1].0, ks[1].2, key);
      GetStep(c, ks[2].1, key, ks[2].2);
      GetKept(e, ks[3].1, ks[3].0, ks[3].2, key);
    } else {
      GetKept(a, ks[0].1, ks[0].0, ks[0].2, key);
      GetKept(b, ks[1].1, ks[1].0, ks[1].2, key);
      GetKept(c, ks[2].1, ks[2].0, ks[2].2, key);
      GetStep(e, ks[3].1, key, ks[3].2);
    }
  }

  /** One conditional assignment: its key is read back as set. */
  lemma GetStep(ps: Params, cond: bool, key: string, value: Value)
    requires Get(ps, key) == None
    ensures Get(SetIf(ps, cond, key, value), key) == if cond then Some(value) else None
    ensures |SetIf(ps, cond, key, value)| >= |ps| && SetIf(ps, cond, key, value)[..|ps|] == ps
  {
    if cond {
      GetAppend(ps, key, value, key);
    }
  }

  /** One conditional assignment leaves every other key as it was. */
  lemma GetKept(ps: Params, cond: bool, key: string, value: Value, k: string)
    requires k != key
    ensures Get(SetIf(ps, cond, key, value), k) == Get(ps, k)
  {
    if cond {
      GetAppend(ps, key, value, k);
    }
  }

  /** Without filters the query is just the page and the limit. */
  lemma UnfilteredQuery(page: int, limit: int, d: Dates)
    ensures Query(page, limit, NoFilters, d) == PageParams(page, limit)
  {
  }

  /** `loadCourses(reset)`: nothing while a load is in flight, else the query for the page asked for. */
  function BeginLoad<T>(s: Pager<T>, reset: bool, limit: int, f: Filters, d: Dates): (r: Option<(Params, Pager<T>)>)
    ensures r.None? <==> s.loading
    ensures r.Some? ==> r.value.0 == Query(Queried(s, reset), limit, f, d) && r.value.1.loading
  {
    match Begin(s, reset)
    case None => None
    case Some((q, t)) => Some((Query(q, limit, f, d), t))
  }

  /** `refreshCourses`: back to page 1 with `hasMore` set, then a reset load. */
  function Refresh<T>(s: Pager<T>, limit: int, f: Filters, d: Dates): (r: Option<(Params, Pager<T>)>)
  {
    BeginLoad(s.(page := 1, hasMore := true), true, limit, f, d)
  }

  /** A refresh that is not refused asks for page 1, whatever page the list had reached. */
  lemma RefreshAsksFirstPage<T>(s: Pager<T>, limit: int, f: Filters, d: Dates)
    requires !s.loading
    ensures Refresh(s, limit, f, d).Some?
    ensures Refresh(s, limit, f, d).value.0[0] == ("page", Num(1))
  {
    QueryCarriesActiveFilters(1, limit, f, d);
  }

  /** The course list's remaining-places label: `仅剩N名额` when few places are left. */
  function RemainingText(capacity: int, booked: int): (r: string)
  {
    Capacity.RemainingText("仅剩", capacity, booked)
  }

  /** One entry of a filter menu: the value it selects and its caption. */
  datatype Opt = Opt(value: string, caption: string)

  datatype Options = Options(dates: seq<Opt>, danceTypes: seq<Opt>, teachers: seq<Opt>, stores: seq<Opt>)

  predicate Selects(o: Opt, v: string) {
    o.value == v
  }

  /** The caption of the first option selecting `v`, or `fallback` when there is none. */
  function CaptionOf(opts: seq<Opt>, v: string, fallback: string): (r: string)
  {
    match Find(opts, (o: Opt) => Selects(o, v))
    case Some(o) => o.caption
    case None => fallback
  }

  /** Option `i` is the first one selecting `v`. */
  predicate FirstSelecting(opts: seq<Opt>, v: string, i: int) {
    0 <= i < |opts| && opts[i].value == v && forall j :: 0 <= j < i ==> opts[j].value != v
  }

  /** `CaptionOf` gives the first matching option's caption, and the fallback exactly when nothing matches. */
  lemma CaptionOfFirst(opts: seq<Opt>, v: string, fallback: string)
    ensures (forall j :: 0 <= j < |opts| ==> opts[j].value != v) ==> CaptionOf(opts, v, fallback) == fallback
    ensures forall i :: FirstSelecting(opts, v, i) ==> CaptionOf(opts, v, fallback) == opts[i].caption
  {
    var p := (o: Opt) => Selects(o, v);
    match FindIndex(opts, p)
    case None =>
    case Some(k) =>
      forall i | FirstSelecting(opts, v, i)
        ensures CaptionOf(opts, v, fallback) == opts[i].caption
      {
        assert !(k < i) && !(i < k);
      }
  }

  /** `getFilterDisplayText(kind)`. */
  function FilterDisplayText(kind: string, f: Filters, o: Options): (r: string)
  {
    match kind
    case "date" => CaptionOf(o.dates, f.date, "全部")
    case "danceType" => if f.danceType == "all" then "舞种" else CaptionOf(o.danceTypes, f.danceType, "舞种")
    case "teacherId" => if f.teacherId == "all" then "导师" else CaptionOf(o.teachers, f.teacherId, "导师")
    case "storeId" => if f.storeId == "all" then "门店" else CaptionOf(o.stores, f.storeId, "门店")
    case _ => "全部"
  }

  function NoOption(opts: seq<Opt>, v: string): bool {
    forall j :: 0 <= j < |opts| ==> opts[j].value != v
  }

  /** The three menu captions fall back to the category name when the filter is off or names no option, and otherwise show the option. */
  lemma CategoryCaptions(f: Filters, o: Options)
    ensures f.danceType == "all" || NoOption(o.danceTypes, f.danceType) ==> FilterDisplayText("danceType", f, o) == "舞种"
    ensures f.teacherId == "all" || NoOption(o.teachers, f.teacherId) ==> FilterDisplayText("teacherId", f, o) == "导师"
    ensures f.storeId == "all" || NoOption(o.stores, f.storeId) ==> FilterDisplayText("storeId", f, o) == "门店"
    ensures forall i :: f.storeId != "all" && FirstSelecting(o.stores, f.storeId, i) ==> FilterDisplayText("storeId", f, o) == o.stores[i].caption
    ensures FilterDisplayText("level", f, o) == "全部"
  {
    DisplayByKind(f, o);
    CaptionOfFirst(o.danceTypes, f.danceType, "舞种");
    CaptionOfFirst(o.teachers, f.teacherId, "导师");
    CaptionOfFirst(o.stores, f.storeId, "门店");
  }

  /** Which caption each filter button reads. */
  lemma DisplayByKind(f: Filters, o: Options)
    ensures FilterDisplayText("danceType", f, o) == if f.danceType == "all" then "舞种" else CaptionOf(o.danceTypes, f.danceType, "舞种")
    ensures FilterDisplayText("teacherId", f, o) == if f.teacherId == "all" then "导师" else CaptionOf(o.teachers, f.teacherId, "导师")
    ensures FilterDisplayText("storeId", f, o) == if f.storeId == "all" then "门店" else CaptionOf(o.stores, f.storeId, "门店")
    ensures FilterDisplayText("level", f, o) == "全部"
  {
  }
}
