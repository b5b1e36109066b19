/**
 * The language-switch button of `components/language-switch.ts`: it flips
 * the registry between Chinese and English, relabels the tab bar and emits a
 * `languagechange` event. Side effects are returned in the order they happen.
 */
module LanguageSwitch {
  import opened JsValue
  import opened I18n
  import opened TabBar

  /** What a click does to the outside world, in order. */
  datatype Effect =
    | SetLanguageCall(code: string, accepted: bool)
    | TabBarUpdate(items: seq<TabItem>)
    | LanguageChangeEvent(language: string)

  /** The button names the language a click switches to. */
  function ButtonText(code: string): (s: string)
    ensures s == "EN" <==> code == DefaultLanguage
    ensures s == "中文" <==> code != DefaultLanguage
  {
    if code == "zh-CN" then "EN" else "中文"
  }

  /** `attached`: the button text for the registry's current language. */
  function Attached(r: Registry): (s: string)
  {
    ButtonText(r.language)
  }

  /**
   * A click changes the button's text, and leaves the text a freshly
   * attached button would show for the new language.
   */
  lemma ClickAgreesWithAttached(r: Registry, st: Storage, c: Catalog)
    ensures Click(r, st, c).languageText == Attached(Click(r, st, c).registry)
    ensures Click(r, st, c).languageText != Attached(r)
  {
    ClickEffects(r, st, c);
  }

  /** The language a click switches to: English from Chinese, Chinese from anything else. */
  function Target(current: string): (code: string)
    ensures code in SupportedLanguages()
    ensures code == "en" <==> current == DefaultLanguage
  {
    if current == "zh-CN" then "en" else "zh-CN"
  }

  /** The state a click sees and leaves behind. */
  datatype Switch = Switch(registry: Registry, storage: Storage, languageText: string, effects: seq<Effect>)

  /** `switchLanguage`: set the target language, update the button, relabel the tabs, emit the event. */
  function Click(r: Registry, st: Storage, c: Catalog): (s: Switch)
  {
    var code := Target(r.language);
    var o := SetLanguage(r, st, c, code);
    Switch(o.registry, o.storage, ButtonText(code),
           [SetLanguageCall(code, o.accepted), TabBarUpdate(SetTabBarLanguage(o.registry)), LanguageChangeEvent(code)])
  }

  /**
   * A click always succeeds: the registry ends on the other language, the
   * choice is persisted, the button now names the language one would switch
   * back to, and the effects come in the order set, tab bar, event.
   */
  lemma ClickEffects(r: Registry, st: Storage, c: Catalog)
    ensures var s := Click(r, st, c);
      && s.registry.language == Target(r.language)
      && s.registry.language != r.language
      && LanguageKey in s.storage && s.storage[LanguageKey] == Str(s.registry.language)
      && s.languageText == ButtonText(s.registry.language)
      && |s.effects| == 3
      && s.effects[0] == SetLanguageCall(s.registry.language, true)
      && s.effects[1] == TabBarUpdate(SetTabBarLanguage(s.registry))
      && s.effects[2] == LanguageChangeEvent(s.registry.language)
  {
    var code := Target(r.language);
    assert code in SupportedLanguages();
  }

  /** Two clicks return to the starting language exactly when it was one of the two supported codes. */
  lemma DoubleClick(r: Registry, st: Storage, c: Catalog)
    ensures var s1 := Click(r, st, c);
      var s2 := Click(s1.registry, s1.storage, c);
      s2.registry.language == r.language <==> r.language in SupportedLanguages()
  {
    var s1 := Click(r, st, c);
    ClickEffects(r, st, c);
    ClickEffects(s1.registry, s1.storage, c);
  }

  /** After two clicks from a supported language the registry is the one that language selects. */
  lemma DoubleClickRestoresTable(r: Registry, st: Storage, c: Catalog)
    requires r.language in SupportedLanguages()
    ensures var s1 := Click(r, st, c);
      var s2 := Click(s1.registry, s1.storage, c);
      s2.registry == Registry(r.language, TableFor(c, r.language).value)
  {
    var s1 := Click(r, st, c);
    ClickEffects(r, st, c);
    ClickEffects(s1.registry, s1.storage, c);
  }
}
