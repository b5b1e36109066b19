/**
 * The load-and-merge pattern every list page repeats: a load asks for page
 * 1 on reset and for the page counter otherwise, replaces the list on reset
 * and appends to it otherwise, moves the counter past the page asked for
 * and copies the server's `hasMore`. Some pages guard the load with a
 * `loading` flag; `loadMore` only loads while there is more and nothing is
 * in flight.
 */
module Paging {
  import opened Wrappers
  import opened JsValue
  import MockApi

  /** A list answer: one page of items and whether more follow. */
  datatype Batch<T> = Batch(list: seq<T>, hasMore: bool)

  /** The paging part of a list page's data. */
  datatype Pager<T> = Pager(items: seq<T>, page: int, hasMore: bool, loading: bool)

  /** The page a load asks for: `reset ? 1 : page`. */
  function Queried<T>(s: Pager<T>, reset: bool): (q: int)
    ensures reset ==> q == 1
    ensures !reset ==> q == s.page
  {
    if reset then 1 else s.page
  }

  /**
   * A load without a guard: the answer, or `None` when the request fails
   * (then nothing changes). The `loading` flag is left alone.
   */
  function Load<T>(s: Pager<T>, reset: bool, response: Option<Batch<T>>): (r: Pager<T>)
    ensures r.loading == s.loading
    ensures response.None? ==> r == s
  {
    match response
    case None => s
    case Some(b) =>
      var q := Queried(s, reset);
      s.(items := if reset then b.list else s.items + b.list, page := q + 1, hasMore := b.hasMore)
  }

  /** The start of a guarded load: refused while a load is in flight, else the page to ask for and the flag set. */
  function Begin<T>(s: Pager<T>, reset: bool): (r: Option<(int, Pager<T>)>)
    ensures r.None? <==> s.loading
    ensures r.Some? ==> r.value.0 == Queried(s, reset) && r.value.1 == s.(loading := true)
  {
    if s.loading then None else Some((Queried(s, reset), s.(loading := true)))
  }

  /** The end of a guarded load: the merge of `Load`, and the flag cleared whatever the outcome. */
  function Finish<T>(s: Pager<T>, reset: bool, response: Option<Batch<T>>): (r: Pager<T>)
    ensures !r.loading
  {
    Load(s, reset, response).(loading := false)
  }

  /** A guarded load started while another is in flight does nothing. */
  lemma GuardSkipsOverlap<T>(s: Pager<T>, reset: bool, reset2: bool)
    requires Begin(s, reset).Some?
    ensures Begin(Begin(s, reset).value.1, reset2) == None
  {
  }

  /** A guarded load that completes is the unguarded load, with the flag cleared again. */
  lemma GuardedLoadIsLoad<T>(s: Pager<T>, reset: bool, response: Option<Batch<T>>)
    requires !s.loading
    ensures var b := Begin(s, reset).value;
      Finish(b.1, reset, response) == Load(s, reset, response) && b.0 == Queried(s, reset)
  {
  }

  /** `loadMore`: the page to fetch when there is more and no load is in flight. */
  function LoadMore<T>(s: Pager<T>): (r: Option<int>)
    ensures r.Some? <==> s.hasMore && !s.loading
    ensures r.Some? ==> r.value == Queried(s, false)
  {
    if s.hasMore && !s.loading then Some(s.page) else None
  }

  /** The items of several answers, in order. */
  function Concat<T>(bs: seq<Batch<T>>): seq<T>
    decreases |bs|
  {
    if bs == [] then [] else bs[0].list + Concat(bs[1..])
  }

  /** Appending loads of the answers, one after the other. */
  function Run<T>(s: Pager<T>, bs: seq<Batch<T>>): Pager<T>
    decreases |bs|
  {
    if bs == [] then s else Run(Load(s, false, Some(bs[0])), bs[1..])
  }

  /** Appending loads lose and repeat nothing: the list grows by every answer in order, and the counter by one per load. */
  lemma {:induction false} RunAppends<T>(s: Pager<T>, bs: seq<Batch<T>>)
    ensures Run(s, bs).items == s.items + Concat(bs)
    ensures Run(s, bs).page == s.page + |bs|
    ensures bs != [] ==> Run(s, bs).hasMore == bs[|bs| - 1].hasMore
    decreases |bs|
  {
    if bs != [] {
      var s1 := Load(s, false, Some(bs[0]));
      RunAppends(s1, bs[1..]);
      assert s.items + bs[0].list + Concat(bs[1..]) == s.items + (bs[0].list + Concat(bs[1..]));
      if |bs| > 1 {
        assert bs[1..][|bs[1..]| - 1] == bs[|bs| - 1];
      }
    }
  }

  /** The mock server's answer to page `k` of `items`. */
  function ServerBatch<T>(items: seq<T>, limit: nat, k: int): Batch<T>
    requires limit >= 1
  {
    var p := MockApi.Paginate(items, Some(k), Some(limit));
    Batch(p.list, p.hasMore)
  }

  /** A reset load of page 1, then `n - 1` loads of the page the counter names, each answered by the mock server. */
  function Browse<T>(s: Pager<T>, items: seq<T>, limit: nat, n: nat): Pager<T>
    requires limit >= 1 && n >= 1
  {
    if n == 1 then Load(s, true, Some(ServerBatch(items, limit, 1)))
    else
      var prev := Browse(s, items, limit, n - 1);
      Load(prev, false, Some(ServerBatch(items, limit, prev.page)))
  }

  /**
   * Browsing `n` pages shows exactly the first `n * limit` items, clipped,
   * in order; the counter names the next page; and `hasMore` is false
   * exactly when the whole list is shown.
   */
  lemma {:induction false} BrowseShowsPrefix<T>(s: Pager<T>, items: seq<T>, limit: nat, n: nat)
    requires limit >= 1 && n >= 1
    ensures Browse(s, items, limit, n).items == items[..MockApi.Min(n * limit, |items|)]
    ensures Browse(s, items, limit, n).page == n + 1
    ensures Browse(s, items, limit, n).hasMore <==> n * limit < |items|
    decreases n
  {
    MockApi.PagesConcatenate(items, limit, n);
    MockApi.PageWindow(items, n, limit);
    if n > 1 {
      BrowseShowsPrefix(s, items, limit, n - 1);
      MockApi.PagesConcatenate(items, limit, n - 1);
    } else {
      assert MockApi.FirstPages(items, limit, 0) == [];
    }
  }

  /** Once `hasMore` turns false, the page shows the whole list. */
  lemma NoMoreShowsAll<T>(s: Pager<T>, items: seq<T>, limit: nat, n: nat)
    requires limit >= 1 && n >= 1
    requires !Browse(s, items, limit, n).hasMore
    ensures Browse(s, items, limit, n).items == items
  {
    BrowseShowsPrefix(s, items, limit, n);
  }

  // ---------------------------------------------------------------------
  // Query parameters.

  /** A params object: its keys and values in insertion order, which is the order the query string uses. */
  type Params = seq<(string, Value)>

  function Keys(ps: Params): (ks: seq<string>)
    ensures |ks| == |ps| && forall i :: 0 <= i < |ps| ==> ks[i] == ps[i].0
  {
    seq(|ps|, i requires 0 <= i < |ps| => ps[i].0)
  }

  /** `params.key`, or `None` when the key was never set. */
  function Get(ps: Params, key: string): (v: Option<Value>)
    ensures v.Some? <==> key in Keys(ps)
    decreases |ps|
  {
    if ps == [] then None
    else if ps[0].0 == key then Some(ps[0].1)
    else Get(ps[1..], key)
  }

  /**
   * `if (cond) params.key = value`, written as an append. On a key already
   * present the appended pair is shadowed by the earlier one for `Get`, so
   * it matches the assignment only for a key not yet set, which is how
   * every query builder uses it: each key is set at most once.
   */
  function SetIf(ps: Params, cond: bool, key: string, value: Value): (r: Params)
    ensures cond ==> r == ps + [(key, value)]
    ensures !cond ==> r == ps
  {
    if cond then ps + [(key, value)] else ps
  }

  /** `{page, limit}`, the start of every list query. */
  function PageParams(page: int, limit: int): (ps: Params)
  {
    [("page", Num(page)), ("limit", Num(limit))]
  }

  /** Reading a key back from a params object built by appending. */
  lemma {:induction false} GetAppend(ps: Params, key: string, value: Value, k: string)
    ensures k == key && k !in Keys(ps) ==> Get(ps + [(key, value)], k) == Some(value)
    ensures k != key ==> Get(ps + [(key, value)], k) == Get(ps, k)
    ensures k in Keys(ps) ==> Get(ps + [(key, value)], k) == Get(ps, k)
    decreases |ps|
  {
    if ps != [] {
      assert (ps + [(key, value)])[1..] == ps[1..] + [(key, value)];
      GetAppend(ps[1..], key, value, k);
    } else {
      assert (ps + [(key, value)]) == [(key, value)];
    }
  }
}
