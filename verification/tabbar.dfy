/**
 * The tab bar labels of `utils/language.js`: the three tabs are relabelled
 * from the registry's active language every time the language changes.
 * The `wx.setTabBarItem` calls are returned as a sequence of items.
 */
module TabBar {
  import opened I18n

  /** One `wx.setTabBarItem({index, text})` call. */
  datatype TabItem = TabItem(index: nat, text: string)

  /** The built-in Chinese labels, used for every language except English. */
  const ChineseLabels: seq<string> := ["首页", "预约", "我的"]

  /** The message keys of the three tabs, in tab order. */
  const LabelKeys: seq<string> := ["navbar.home", "navbar.booking", "navbar.profile"]

  /** The label of tab `i` for the registry's current language. */
  function Label(r: Registry, i: nat): string
    requires i < 3
  {
    if r.language == "en" then T(r, LabelKeys[i], []) else ChineseLabels[i]
  }

  /** `setTabBarLanguage`: exactly three calls, for tabs 0, 1 and 2 in that order. */
  function SetTabBarLanguage(r: Registry): (items: seq<TabItem>)
    ensures |items| == 3
    ensures forall i :: 0 <= i < |items| ==> items[i].index == i && items[i].text == Label(r, i)
  {
    [TabItem(0, Label(r, 0)), TabItem(1, Label(r, 1)), TabItem(2, Label(r, 2))]
  }

  /** `initLanguage` does nothing but set the tab bar. */
  function InitLanguage(r: Registry): (items: seq<TabItem>)
    ensures items == SetTabBarLanguage(r)
  {
    SetTabBarLanguage(r)
  }

  /**
   * At start-up `initLanguage` relabels the three tabs, in order, in English
   * for `'en'` and in the fixed Chinese labels otherwise.
   */
  lemma InitLanguageLabels(r: Registry)
    ensures |InitLanguage(r)| == 3
    ensures forall i :: 0 <= i < 3 ==> InitLanguage(r)[i].index == i
    ensures r.language == "en" ==> Texts(InitLanguage(r)) == [T(r, "navbar.home", []), T(r, "navbar.booking", []), T(r, "navbar.profile", [])]
    ensures r.language != "en" ==> Texts(InitLanguage(r)) == ChineseLabels
  {
    if r.language == "en" {
      EnglishLabels(r);
    } else {
      OtherLabels(r);
    }
  }

  /** The texts of a list of tab items. */
  function Texts(items: seq<TabItem>): (ts: seq<string>)
    ensures |ts| == |items|
    ensures forall i :: 0 <= i < |items| ==> ts[i] == items[i].text
  {
    seq(|items|, i requires 0 <= i < |items| => items[i].text)
  }

  /** In English the tabs show the translations of the three navbar keys. */
  lemma EnglishLabels(r: Registry)
    requires r.language == "en"
    ensures Texts(SetTabBarLanguage(r)) == [T(r, "navbar.home", []), T(r, "navbar.booking", []), T(r, "navbar.profile", [])]
  {
  }

  /** Any other language, supported or not, shows the fixed Chinese labels, whatever its table holds. */
  lemma OtherLabels(r: Registry)
    requires r.language != "en"
    ensures Texts(SetTabBarLanguage(r)) == ChineseLabels
  {
  }

  /** Two registries with the same language and the same navbar entries give the same tab bar. */
  lemma LabelsDependOnLanguage(r1: Registry, r2: Registry)
    requires r1.language == r2.language
    requires forall i :: 0 <= i < 3 ==> Resolve(r1, LabelKeys[i]) == Resolve(r2, LabelKeys[i])
    ensures SetTabBarLanguage(r1) == SetTabBarLanguage(r2)
  {
    forall i | 0 <= i < 3
      ensures Label(r1, i) == Label(r2, i)
    {
    }
  }
}
