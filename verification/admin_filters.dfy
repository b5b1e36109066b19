/**
 * What the admin list pages share: the list query with the store and
 * status filters and one optional extra parameter, and the filter menus,
 * each an "all" entry followed by the choices, whose caption for the
 * current value is shown on the filter button.
 */
module AdminFilters {
  import opened Wrappers
  import opened JsValue
  import opened Paging
  import opened JsArray
  import CourseList

  /** The store and status filters; `'all'` switches a filter off. */
  datatype Filters = Filters(storeId: string, status: string)

  const NoFilters := Filters("all", "all")

  /**
   * The query of a list load: page and limit, the store and the status
   * when not `'all'`, and the extra parameter (the search keyword, or the
   * date) when it is not empty.
   */
  function Query(page: int, limit: int, f: Filters, extraKey: string, extra: string): (ps: Params)
  {
    var a := PageParams(page, limit);
    var b := SetIf(a, f.storeId != "all", "storeId", Str(f.storeId));
    var c := SetIf(b, f.status != "all", "status", Str(f.status));
    SetIf(c, extra != "", extraKey, Str(extra))
  }

  /** The query names the page and limit first, and carries each filter exactly when it is on, with its value. */
  lemma QueryCarriesActiveFilters(page: int, limit: int, f: Filters, extraKey: string, extra: string)
    requires extraKey !in {"page", "limit", "storeId", "status"}
    ensures var ps := Query(page, limit, f, extraKey, extra);
      |ps| >= 2 && ps[..2] == PageParams(page, limit)
      && (Get(ps, "storeId").Some? <==> f.storeId != "all")
      && (Get(ps, "status").Some? <==> f.status != "all")
      && (Get(ps, extraKey).Some? <==> extra != "")
      && (f.storeId != "all" ==> Get(ps, "storeId") == Some(Str(f.storeId)))
      && (f.status != "all" ==> Get(ps, "status") == Some(Str(f.status)))
      && (extra != "" ==> Get(ps, extraKey) == Some(Str(extra)))
  {
    var a := PageParams(page, limit);
    var b := SetIf(a, f.storeId != "all", "storeId", Str(f.storeId));
    var c := SetIf(b, f.status != "all", "status", Str(f.status));
    var ps := SetIf(c, extra != "", extraKey, Str(extra));
    assert ps[..|c|] == c && c[..|b|] == b && b[..|a|] == a;
    assert ps[..2] == c[..2] == b[..2] == a;
    QueryKey(page, limit, f, extraKey, extra, 0);
    QueryKey(page, limit, f, extraKey, extra, 1);
    QueryKey(page, limit, f, extraKey, extra, 2);
  }

  /** The query's keys after the page and limit, in the order they are set, with the condition and value of each. */
  function QueryKeys(f: Filters, extraKey: string, extra: string): (ks: seq<(string, bool, Value)>)
  {
    [("storeId", f.storeId != "all", Str(f.storeId)),
     ("status", f.status != "all", Str(f.status)),
     (extraKey, extra != "", Str(extra))]
  }

  /** The `j`-th key is read back from the query exactly when it is set, with its value. */
  lemma QueryKey(page: int, limit: int, f: Filters, extraKey: string, extra: string, j: nat)
    requires extraKey !in {"page", "limit", "storeId", "status"} && j < 3
    ensures var k := QueryKeys(f, extraKey, extra)[j];
      Get(Query(page, limit, f, extraKey, extra), k.0) == if k.1 then Some(k.2) else None
  {
    var ks := QueryKeys(f, extraKey, extra);
    var a := PageParams(page, limit);
    var b := SetIf(a, ks[0].1, ks[0].0, ks[0].2);
    var c := SetIf(b, ks[1].1, ks[1].0, ks[1].2);
    var ps := SetIf(c, ks[2].1, ks[2].0, ks[2].2);
    assert ps == Query(page, limit, f, extraKey, extra);
    var key := ks[j].0;
    assert Keys(a) == ["page", "limit"];
    assert Get(a, key) == None;
    if j == 0 {
      CourseList.GetStep(a, ks[0].1, key, ks[0].2);
      CourseList.GetKept(b, ks[1].1, ks[1].0, ks[1].2, key);
      CourseList.GetKept(c, ks[2].1, ks[2].0, ks[2].2, key);
    } else if j == 1 {
      CourseList.GetKept(a, ks[0].1, ks[0].0, ks[0].2, key);
      CourseList.GetStep(b, ks[1].1, key, ks[1].2);
      CourseList.GetKept(c, ks[2].1, ks[2].0, ks[2].2, key);
    } else {
      CourseList.GetKept(a, ks[0].1, ks[0].0, ks[0].2, key);
      CourseList.GetKept(b, ks[1].1, ks[1].0, ks[1].2, key);
      CourseList.GetStep(c, ks[2].1, key, ks[2].2);
    }
  }

  /** With no filter on and nothing extra, the query is just the page and the limit. */
  lemma UnfilteredQuery(page: int, limit: int, extraKey: string)
    ensures Query(page, limit, NoFilters, extraKey, "") == PageParams(page, limit)
  {
  }

  // ---------------------------------------------------------------------
  // The filter menus.

  /** A menu: the "all" entry, captioned `allCaption`, then the choices in order. */
  function Menu(allCaption: string, choices: seq<CourseList.Opt>): (r: seq<CourseList.Opt>)
  {
    [CourseList.Opt("all", allCaption)] + choices
  }

  /** The filter button's caption: `allCaption` for `'all'`, else the caption of the first choice with that value, else `allCaption`. */
  function Display(allCaption: string, choices: seq<CourseList.Opt>, value: string): (r: string)
  {
    if value == "all" then allCaption else CourseList.CaptionOf(choices, value, allCaption)
  }

  /**
   * The button shows the caption of the entry the value was picked from;
   * a value no entry carries shows the "all" caption.
   */
  lemma DisplayShowsPicked(allCaption: string, choices: seq<CourseList.Opt>, value: string, i: int)
    requires CourseList.FirstSelecting(Menu(allCaption, choices), value, i)
    ensures Display(allCaption, choices, value) == Menu(allCaption, choices)[i].caption
  {
    var m := Menu(allCaption, choices);
    if value != "all" {
      assert i > 0;
      assert CourseList.FirstSelecting(choices, value, i - 1) by {
        forall j | 0 <= j < i - 1
          ensures choices[j].value != value
        {
          assert m[j + 1] == choices[j];
        }
      }
      assert m[i] == choices[i - 1];
      CourseList.CaptionOfFirst(choices, value, allCaption);
    } else {
      assert m[0].value == "all";
    }
  }

  lemma DisplayFallback(allCaption: string, choices: seq<CourseList.Opt>, value: string)
    requires CourseList.NoOption(Menu(allCaption, choices), value)
    ensures Display(allCaption, choices, value) == allCaption
  {
    assert Menu(allCaption, choices)[0].value == "all";
    forall j | 0 <= j < |choices|
      ensures choices[j].value != value
    {
      assert Menu(allCaption, choices)[j + 1] == choices[j];
    }
    CourseList.CaptionOfFirst(choices, value, allCaption);
  }

  /** A store as the store list answers it. */
  datatype Store = Store(storeId: string, name: string)

  /** The stores as menu choices: value the id, caption the name. */
  function StoreChoices(stores: seq<Store>): (r: seq<CourseList.Opt>)
    ensures |r| == |stores|
    ensures forall i :: 0 <= i < |stores| ==> r[i] == CourseList.Opt(stores[i].storeId, stores[i].name)
  {
    seq(|stores|, i requires 0 <= i < |stores| => CourseList.Opt(stores[i].storeId, stores[i].name))
  }

  const AllStores := "全部门店"
  const AllStatuses := "全部状态"

  /** `getFilterOptions('storeId')`: the "all" entry, then one entry per store in order. */
  function StoreMenu(stores: seq<Store>): (r: seq<CourseList.Opt>)
  {
    Menu(AllStores, StoreChoices(stores))
  }

  /** The store menu is one entry longer than the store list and keeps its order. */
  lemma StoreMenuShape(stores: seq<Store>)
    ensures |StoreMenu(stores)| == |stores| + 1
    ensures StoreMenu(stores)[0] == CourseList.Opt("all", AllStores)
    ensures forall i :: 0 <= i < |stores| ==> StoreMenu(stores)[i + 1] == CourseList.Opt(stores[i].storeId, stores[i].name)
  {
    var cs := StoreChoices(stores);
    var m := StoreMenu(stores);
    assert m == [CourseList.Opt("all", AllStores)] + cs;
    forall i | 0 <= i < |stores|
      ensures m[i + 1] == CourseList.Opt(stores[i].storeId, stores[i].name)
    {
      assert m[i + 1] == cs[i];
    }
  }

  /** The store button: `'全部门店'` for `'all'`, else the name of the first store with the id, else `'全部门店'`. */
  function StoreDisplay(stores: seq<Store>, storeId: string): (r: string)
  {
    if storeId == "all" then AllStores
    else
      match Find(stores, (s: Store) => s.storeId == storeId)
      case Some(s) => s.name
      case None => AllStores
  }

  /** The store button's search over the stores is the menu's caption lookup. */
  lemma StoreDisplayIsMenuCaption(stores: seq<Store>, storeId: string)
    ensures StoreDisplay(stores, storeId) == Display(AllStores, StoreChoices(stores), storeId)
  {
    var p := (s: Store) => s.storeId == storeId;
    var q := (o: CourseList.Opt) => CourseList.Selects(o, storeId);
    var cs := StoreChoices(stores);
    FindIndexMap(stores, cs, p, q);
  }

  /** Looking up a store and looking up its menu entry find the same position. */
  lemma {:induction false} FindIndexMap(stores: seq<Store>, cs: seq<CourseList.Opt>, p: Store -> bool, q: CourseList.Opt -> bool)
    requires |cs| == |stores|
    requires forall i :: 0 <= i < |stores| ==> cs[i] == CourseList.Opt(stores[i].storeId, stores[i].name)
    requires forall s: Store :: p(s) == q(CourseList.Opt(s.storeId, s.name))
    ensures FindIndex(stores, p) == FindIndex(cs, q)
    ensures match Find(stores, p)
      case Some(s) => Find(cs, q) == Some(CourseList.Opt(s.storeId, s.name))
      case None => Find(cs, q).None?
    decreases |stores|
  {
    if stores != [] {
      FindIndexMap(stores[1..], cs[1..], p, q);
    }
  }
}
