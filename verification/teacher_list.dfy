/**
 * The teacher list page: the dance-type and store filters, the page cut
 * out of the filtered list and merged into what is shown, and the rating
 * stars. Ratings are held in tenths of a star (4.6 is 46).
 */
module TeacherList {
  import opened Wrappers
  import opened JsArray
  import opened Paging
  import MockApi

  datatype Teacher = Teacher(teacherId: string, danceTypes: seq<string>, store: string)

  datatype Filters = Filters(danceType: string, store: string)

  predicate TeachesType(t: Teacher, danceType: string) {
    danceType in t.danceTypes
  }

  predicate AtStore(t: Teacher, store: string) {
    t.store == store
  }

  /** The two filters in turn, each skipped for `'all'`. */
  function Filtered(all: seq<Teacher>, f: Filters): (r: seq<Teacher>)
  {
    var a := if f.danceType != "all" then Filter(all, (t: Teacher) => TeachesType(t, f.danceType)) else all;
    if f.store != "all" then Filter(a, (t: Teacher) => AtStore(t, f.store)) else a
  }

  /** A teacher is kept exactly when each active filter accepts it. */
  lemma FilteredMembers(all: seq<Teacher>, f: Filters, t: Teacher)
    ensures t in Filtered(all, f) <==>
      t in all && (f.danceType == "all" || f.danceType in t.danceTypes) && (f.store == "all" || t.store == f.store)
  {
    var a := if f.danceType != "all" then Filter(all, (t: Teacher) => TeachesType(t, f.danceType)) else all;
    if f.danceType != "all" {
      FilterMembers(all, (t: Teacher) => TeachesType(t, f.danceType), t);
    }
    if f.store != "all" {
      FilterMembers(a, (t: Teacher) => AtStore(t, f.store), t);
    }
  }

  /**
   * `loadTeachers`: the window `[(page-1)*pageSize, page*pageSize)` of the
   * filtered list, replacing the list on page 1 and appended otherwise;
   * `hasMore` tells whether the filtered list goes on past the window.
   */
  function LoadTeachers(s: Pager<Teacher>, pageSize: int, all: seq<Teacher>, f: Filters): (r: Pager<Teacher>)
    ensures r.page == s.page + 1 && !r.loading
  {
    var filtered := Filtered(all, f);
    var start := (s.page - 1) * pageSize;
    var end := start + pageSize;
    var window := Slice(filtered, start, end);
    s.(items := if s.page == 1 then window else s.items + window, page := s.page + 1,
       hasMore := end < |filtered|, loading := false)
  }

  /** On positive pages the client-side window is the mock server's pagination, merged as every list page merges. */
  lemma LoadIsServerLoad(s: Pager<Teacher>, pageSize: nat, all: seq<Teacher>, f: Filters)
    requires s.page >= 1 && pageSize >= 1 && !s.loading
    ensures LoadTeachers(s, pageSize, all, f) == Load(s, s.page == 1, Some(ServerBatch(Filtered(all, f), pageSize, s.page)))
  {
  }

  /** `refreshData`: back to page 1, `hasMore` set and the list emptied. */
  function Refreshed(s: Pager<Teacher>): (r: Pager<Teacher>)
  {
    s.(items := [], page := 1, hasMore := true)
  }

  /** `n` loads after a refresh. */
  function LoadN(s: Pager<Teacher>, pageSize: int, all: seq<Teacher>, f: Filters, n: nat): Pager<Teacher>
  {
    if n == 0 then Refreshed(s) else LoadTeachers(LoadN(s, pageSize, all, f, n - 1), pageSize, all, f)
  }

  /** After a refresh, `n` loads of the page are `n` pages of the filtered list browsed through the server's pagination. */
  lemma {:induction false} LoadNIsBrowse(s: Pager<Teacher>, pageSize: nat, all: seq<Teacher>, f: Filters, n: nat)
    requires pageSize >= 1 && n >= 1 && !s.loading
    ensures LoadN(s, pageSize, all, f, n) == Browse(Refreshed(s).(loading := false), Filtered(all, f), pageSize, n)
    decreases n
  {
    var r := Refreshed(s).(loading := false);
    if n == 1 {
      assert r == Refreshed(s);
      LoadIsServerLoad(Refreshed(s), pageSize, all, f);
    } else {
      LoadNIsBrowse(s, pageSize, all, f, n - 1);
      var prev := LoadN(s, pageSize, all, f, n - 1);
      BrowseShowsPrefix(r, Filtered(all, f), pageSize, n - 1);
      LoadIsServerLoad(prev, pageSize, all, f);
    }
  }

  /** After a refresh and `n` loads the page shows the first `n * pageSize` filtered teachers, in order, and nothing else. */
  lemma LoadsShowPrefix(s: Pager<Teacher>, pageSize: nat, all: seq<Teacher>, f: Filters, n: nat)
    requires pageSize >= 1 && n >= 1 && !s.loading
    ensures LoadN(s, pageSize, all, f, n) == Browse(Refreshed(s).(loading := false), Filtered(all, f), pageSize, n)
    ensures LoadN(s, pageSize, all, f, n).items == Filtered(all, f)[..MockApi.Min(n * pageSize, |Filtered(all, f)|)]
    ensures LoadN(s, pageSize, all, f, n).hasMore <==> n * pageSize < |Filtered(all, f)|
  {
    LoadNIsBrowse(s, pageSize, all, f, n);
    BrowseShowsPrefix(Refreshed(s).(loading := false), Filtered(all, f), pageSize, n);
  }

  // ---------------------------------------------------------------------
  // Rating stars.

  function Repeat(c: char, n: nat): (r: string)
    ensures |r| == n && forall i :: 0 <= i < n ==> r[i] == c
  {
    seq(n, _ => c)
  }

  /** The stars `getRatingStars` draws for a rating of `tenths / 10`: full stars, then `'☆'` for the half and the empty ones alike. */
  function StarsSpec(tenths: nat): (r: string)
  {
    var full := tenths / 10;
    var half := if tenths % 10 >= 5 then 1 else 0;
    var empty := if 5 - full - half > 0 then 5 - full - half else 0;
    Repeat('★', full) + Repeat('☆', half + empty)
  }

  /** `getRatingStars`, loop by loop. */
  method RatingStars(tenths: nat) returns (stars: string)
    ensures stars == StarsSpec(tenths)
    ensures tenths <= 50 ==> |stars| == 5
    ensures forall i :: 0 <= i < |stars| ==> (stars[i] == '★' <==> i < tenths / 10)
  {
    var full := tenths / 10;
    var hasHalf := tenths % 10 >= 5;
    var empty := 5 - full - (if hasHalf then 1 else 0);
    stars := "";
    var i := 0;
    while i < full
      invariant 0 <= i <= full
      invariant stars == Repeat('★', i)
    {
      stars := stars + "★";
      i := i + 1;
    }
    if hasHalf {
      stars := stars + "☆";
    }
    var j := 0;
    while j < empty
      invariant 0 <= j <= (if empty > 0 then empty else 0)
      invariant stars == Repeat('★', full) + Repeat('☆', (if hasHalf then 1 else 0) + j)
    {
      stars := stars + "☆";
      j := j + 1;
    }
    assert j == if empty > 0 then empty else 0;
  }

  /** A rating between 0 and 5 gives five stars, its whole part lit, and a half star looks like an empty one. */
  lemma HalfStarLooksEmpty()
    ensures StarsSpec(45) == StarsSpec(40) == "★★★★☆"
    ensures StarsSpec(49) == StarsSpec(40)
    ensures StarsSpec(50) == "★★★★★"
  {
    assert Repeat('★', 4) == "★★★★";
    assert Repeat('★', 5) == "★★★★★";
    assert Repeat('☆', 1) == "☆";
  }
}
