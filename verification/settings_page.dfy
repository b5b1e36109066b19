/**
 * The settings page of `pages/settings/index.ts`: the language toggle with
 * its notification of every open page, and the rotation through the three
 * stores.
 */
module SettingsPage {
  import opened Wrappers
  import opened JsValue
  import opened I18n

  /** The language the page believes is active: `globalData.language || 'zh-CN'`. */
  function CurrentCode(language: Value): (code: string)
    ensures Truthy(language) ==> code == ToStr(language)
    ensures !Truthy(language) ==> code == DefaultLanguage
  {
    ToStr(Or(language, Str(DefaultLanguage)))
  }

  /** The toggle: English from Chinese, Chinese from anything else. */
  function Toggle(language: Value): (code: string)
    ensures code in SupportedLanguages()
    ensures code == "en" <==> CurrentCode(language) == DefaultLanguage
  {
    if CurrentCode(language) == "zh-CN" then "en" else "zh-CN"
  }

  /** The name the page shows for a language code. */
  function DisplayName(code: string): (name: string)
    ensures name == "中文" <==> code == DefaultLanguage
    ensures name == "English" <==> code != DefaultLanguage
  {
    if code == "zh-CN" then "中文" else "English"
  }

  /** A page on the navigation stack, and whether it defines `onLanguageChange`. */
  datatype OpenPage = OpenPage(route: string, hasLanguageHandler: bool)

  /** Indices below `n` of the pages that have a handler, in stack order. */
  function HandlerIndices(pages: seq<OpenPage>, n: nat): (ix: seq<nat>)
    requires n <= |pages|
  {
    if n == 0 then []
    else HandlerIndices(pages, n - 1) + (if pages[n - 1].hasLanguageHandler then [n - 1] else [])
  }

  /** Every index in `ix` is below `n` and the indices strictly increase. */
  predicate Ascending(ix: seq<nat>, n: nat) {
    (forall k :: 0 <= k < |ix| ==> ix[k] < n) && (forall k, l :: 0 <= k < l < |ix| ==> ix[k] < ix[l])
  }

  /** `pages.forEach(page => { if (page.onLanguageChange) page.onLanguageChange() })`. */
  method NotifyPages(pages: seq<OpenPage>) returns (calls: seq<nat>)
    ensures Ascending(calls, |pages|)
    ensures forall i :: 0 <= i < |pages| ==> (i in calls <==> pages[i].hasLanguageHandler)
  {
    calls := [];
    var i := 0;
    while i < |pages|
      invariant 0 <= i <= |pages|
      invariant Ascending(calls, i)
      invariant forall j :: 0 <= j < i ==> (j in calls <==> pages[j].hasLanguageHandler)
      invariant forall j :: i <= j < |pages| ==> j !in calls
    {
      if pages[i].hasLanguageHandler {
        calls := calls + [i];
      }
      i := i + 1;
    }
  }

  /** The calls are exactly the handler indices, so each handler runs once and in stack order. */
  lemma {:induction false} NotifyOrder(pages: seq<OpenPage>, n: nat)
    requires n <= |pages|
    ensures Ascending(HandlerIndices(pages, n), n)
    ensures forall i :: 0 <= i < n ==> (i in HandlerIndices(pages, n) <==> pages[i].hasLanguageHandler)
  {
    if n > 0 {
      NotifyOrder(pages, n - 1);
    }
  }

  /** The page's view after a language switch, and the pages told about it. */
  datatype LanguageSwitch = LanguageSwitch(newCode: string, display: string, notified: seq<nat>)

  /** The `App` methods `app.ts` defines; the settings page calls one that is not among them. */
  const AppMethods: set<string> := {"onLaunch", "checkLoginStatus", "wxLogin", "wxLoginWithUserInfo", "simulateApiCall", "logout", "switchStore"}

  /**
   * `switchLanguage` as written: it calls `app.switchLanguage(newLanguage)`
   * first, so with an app that lacks that method the call throws and nothing
   * after it (display update, toast, notifications) happens.
   */
  function SwitchLanguageAsWritten(appMethods: set<string>, language: Value, pages: seq<OpenPage>): (r: Result<LanguageSwitch, string>)
    ensures r.Err? <==> "switchLanguage" !in appMethods
    ensures r.Ok? ==> r.value.newCode == Toggle(language) && r.value.display == DisplayName(r.value.newCode)
  {
    if "switchLanguage" !in appMethods then Err("TypeError: app.switchLanguage is not a function")
    else
      var code := Toggle(language);
      Ok(LanguageSwitch(code, DisplayName(code), HandlerIndices(pages, |pages|)))
  }

  /** With the app that `app.ts` defines, every language switch on the settings page fails. */
  lemma SwitchLanguageAlwaysThrows(language: Value, pages: seq<OpenPage>)
    ensures SwitchLanguageAsWritten(AppMethods, language, pages).Err?
  {
    assert "switchLanguage" !in AppMethods;
  }

  /** What the new code and the notifications were evidently meant to be. */
  datatype SwitchOutcome = SwitchOutcome(registry: Registry, storage: Storage, display: string, notified: seq<nat>)

  /**
   * The intended switch: toggle the registry's language through `setLanguage`
   * (which persists it), show the new name and notify every page with a handler.
   */
  function SwitchLanguage(r: Registry, st: Storage, c: Catalog, pages: seq<OpenPage>): (o: SwitchOutcome)
    ensures o.registry.language == Toggle(Str(r.language))
    ensures o.storage == st[LanguageKey := Str(o.registry.language)]
    ensures o.display == DisplayName(o.registry.language)
    ensures Ascending(o.notified, |pages|)
    ensures forall i :: 0 <= i < |pages| ==> (i in o.notified <==> pages[i].hasLanguageHandler)
  {
    var code := Toggle(Str(r.language));
    var s := SetLanguage(r, st, c, code);
    NotifyOrder(pages, |pages|);
    SwitchOutcome(s.registry, s.storage, DisplayName(code), HandlerIndices(pages, |pages|))
  }

  /** The intended switch, applied twice from a supported language, restores it and its display name. */
  lemma SwitchTwice(r: Registry, st: Storage, c: Catalog, pages: seq<OpenPage>)
    requires r.language in SupportedLanguages()
    ensures var o1 := SwitchLanguage(r, st, c, pages);
      var o2 := SwitchLanguage(o1.registry, o1.storage, c, pages);
      o2.registry.language == r.language && o2.display == DisplayName(r.language)
  {
  }

  // ---------------------------------------------------------------------
  // Store rotation.

  /** The three stores, in rotation order. */
  const Stores: seq<string> := ["南山店", "福田店", "罗湖店"]

  /** `Array.prototype.indexOf`: the first position holding `x`, or -1. */
  function IndexOf(xs: seq<string>, x: string): (i: int)
    ensures -1 <= i < |xs|
    ensures i == -1 <==> x !in xs
    ensures 0 <= i ==> xs[i] == x && forall j :: 0 <= j < i ==> xs[j] != x
  {
    if xs == [] then -1
    else if xs[0] == x then 0
    else
      var j := IndexOf(xs[1..], x);
      if j == -1 then -1 else j + 1
  }

  /** `switchStore`: the store after `globalData.currentStore || '南山店'` in the rotation. */
  function NextStore(current: string): (next: string)
    ensures next in Stores
  {
    var cur := if current != "" then current else "南山店";
    Stores[(IndexOf(Stores, cur) + 1) % |Stores|]
  }

  /** A listed store is followed by the next one in the list, wrapping around. */
  lemma {:induction false} NextOfListed(i: nat)
    requires i < 3
    ensures NextStore(Stores[i]) == Stores[(i + 1) % 3]
    ensures NextStore(Stores[i]) == Stores[if i == 2 then 0 else i + 1]
  {
    assert Stores[0] != Stores[1] && Stores[0] != Stores[2] && Stores[1] != Stores[2];
    assert IndexOf(Stores, Stores[i]) == i;
  }

  /** A store missing from the list (indexOf = -1) rotates to the first store. */
  lemma UnknownStore(current: string)
    requires current != "" && current !in Stores
    ensures NextStore(current) == "南山店"
  {
  }

  /** Three rotations from a listed store come back to it. */
  lemma ThreeRotations(s: string)
    requires s in Stores
    ensures NextStore(NextStore(NextStore(s))) == s
  {
    var i :| 0 <= i < 3 && Stores[i] == s;
    var j := if i == 2 then 0 else i + 1;
    var k := if j == 2 then 0 else j + 1;
    NextOfListed(i);
    NextOfListed(j);
    NextOfListed(k);
  }
}
