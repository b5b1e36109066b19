/**
 * The translation registry of `utils/i18n.js`: a single instance holding the
 * active language code and that language's key-to-text table. The setter
 * accepts only the supported codes and persists the choice to storage; the
 * lookup `t` never fails, falling back to the key and filling `{name}`
 * placeholders from its parameters.
 */
module I18n {
  import opened Wrappers
  import opened Text
  import opened JsValue

  /** The storage key under which the chosen language is kept. */
  const LanguageKey: string := "language"

  /** The language used when nothing has been stored. */
  const DefaultLanguage: string := "zh-CN"

  /**
   * The two message tables the registry can switch between: the Chinese
   * table (whose contents are not part of this model) and the English one.
   */
  datatype Catalog = Catalog(zh: map<string, string>, en: map<string, string>)

  /** `SUPPORTED_LANGUAGES[code]`: the table registered under a code, if any. */
  function TableFor(c: Catalog, code: string): (r: Option<map<string, string>>)
    ensures r.Some? <==> code == "zh-CN" || code == "en"
    ensures code == "zh-CN" ==> r == Some(c.zh)
    ensures code == "en" ==> r == Some(c.en)
  {
    if code == "zh-CN" then Some(c.zh)
    else if code == "en" then Some(c.en)
    else None
  }

  /** `getSupportedLanguages()`: the codes the registry was built with, in declaration order. */
  function SupportedLanguages(): (r: seq<string>)
    ensures |r| == 2 && r[0] == DefaultLanguage
    ensures forall c: Catalog, code: string :: code in r <==> TableFor(c, code).Some?
  {
    ["zh-CN", "en"]
  }

  /** The state of the singleton: the active code and the table it selected. */
  datatype Registry = Registry(language: string, messages: map<string, string>)

  /**
   * The constructor: the stored language if it is truthy, else the default;
   * the table registered under that code, or the Chinese table when the code
   * is not supported. A non-string stored value is represented by its string
   * form, which no supported code equals.
   */
  function Create(st: Storage, c: Catalog): (r: Registry)
    ensures Load(st, LanguageKey) == Str(r.language) || !Truthy(Load(st, LanguageKey)) || !Load(st, LanguageKey).Str?
    ensures forall s :: Load(st, LanguageKey) == Str(s) && s != "" ==> r.language == s
    ensures !Truthy(Load(st, LanguageKey)) ==> r.language == DefaultLanguage
    ensures TableFor(c, r.language).Some? ==> r.messages == TableFor(c, r.language).value
    ensures TableFor(c, r.language).None? ==> r.messages == c.zh
  {
    var language := ToStr(Or(Load(st, LanguageKey), Str(DefaultLanguage)));
    Registry(language, TableFor(c, language).GetOr(c.zh))
  }

  /** What `setLanguage` returns, together with the state it leaves behind. */
  datatype SetOutcome = SetOutcome(accepted: bool, registry: Registry, storage: Storage)

  /** `setLanguage(code)`: switch to a supported code and persist it; refuse anything else. */
  function SetLanguage(r: Registry, st: Storage, c: Catalog, code: string): (o: SetOutcome)
    ensures o.accepted <==> code in SupportedLanguages()
    ensures !o.accepted ==> o.registry == r && o.storage == st
    ensures o.accepted ==> o.registry.language == code
    ensures o.accepted ==> Some(o.registry.messages) == TableFor(c, code)
    ensures o.accepted ==> o.storage == st[LanguageKey := Str(code)]
  {
    match TableFor(c, code)
    case Some(table) => SetOutcome(true, Registry(code, table), st[LanguageKey := Str(code)])
    case None => SetOutcome(false, r, st)
  }

  /** `this.messages[key] || key`: the entry, unless it is missing or empty. */
  function Resolve(r: Registry, key: string): (m: string)
    ensures key in r.messages && r.messages[key] != "" ==> m == r.messages[key]
    ensures key !in r.messages || r.messages[key] == "" ==> m == key
  {
    if key in r.messages && r.messages[key] != "" then r.messages[key] else key
  }

  /** One entry of the `params` object of `t`, its value already converted to a string. */
  datatype Param = Param(name: string, value: string)

  /** The literal text `{name}` that the regular expression built for `name` matches. */
  function Placeholder(name: string): (p: string)
    ensures |p| == |name| + 2 && p[0] == '{' && p[|p| - 1] == '}'
  {
    "{" + name + "}"
  }

  /** The substitution loop of `t`: one global replace per parameter, in key order. */
  function Interpolate(message: string, params: seq<Param>): string
    decreases |params|
  {
    if params == [] then message
    else Interpolate(ReplaceAll(message, Placeholder(params[0].name), params[0].value), params[1..])
  }

  /** `t(key, params)`. */
  function T(r: Registry, key: string, params: seq<Param>): string {
    Interpolate(Resolve(r, key), params)
  }

  // ---------------------------------------------------------------------
  // Messages as templates: literal text interleaved with placeholders.

  /** A piece of a message: literal text, or a `{name}` placeholder. */
  datatype Piece = Lit(text: string) | Hole(name: string)

  predicate BraceFree(s: string) {
    '{' !in s && '}' !in s
  }

  /** The text a piece carries: the literal itself, or the placeholder's name. */
  function Content(p: Piece): string {
    if p.Lit? then p.text else p.name
  }

  /** Literals and names free of braces, so that placeholders are exactly the holes. */
  predicate WellFormed(ps: seq<Piece>) {
    forall i :: 0 <= i < |ps| ==> BraceFree(Content(ps[i]))
  }

  function RenderPiece(p: Piece): string {
    match p
    case Lit(t) => t
    case Hole(n) => Placeholder(n)
  }

  /** The message text a template stands for. */
  function Render(ps: seq<Piece>): string
    decreases |ps|
  {
    if ps == [] then "" else RenderPiece(ps[0]) + Render(ps[1..])
  }

  /** The value of the first parameter with the given name. */
  function Lookup(params: seq<Param>, name: string): (v: Option<string>)
    ensures v.Some? ==> exists i :: 0 <= i < |params| && params[i] == Param(name, v.value)
    ensures v.None? ==> forall i :: 0 <= i < |params| ==> params[i].name != name
    decreases |params|
  {
    if params == [] then None
    else if params[0].name == name then Some(params[0].value)
    else
      var v := Lookup(params[1..], name);
      if v.Some? then
        var i :| 0 <= i < |params[1..]| && params[1..][i] == Param(name, v.value);
        assert params[i + 1] == Param(name, v.value);
        v
      else v
  }

  function SubstPiece(p: Piece, params: seq<Param>): Piece {
    if p.Hole? && Lookup(params, p.name).Some? then Lit(Lookup(params, p.name).value) else p
  }

  /** The template with every placeholder that has a parameter replaced by that parameter's value. */
  function Subst(ps: seq<Piece>, params: seq<Param>): (qs: seq<Piece>)
    ensures |qs| == |ps|
  {
    seq(|ps|, i requires 0 <= i < |ps| => SubstPiece(ps[i], params))
  }

  function FillPiece(p: Piece, name: string, value: string): Piece {
    if p == Hole(name) then Lit(value) else p
  }

  function Fill(ps: seq<Piece>, name: string, value: string): (qs: seq<Piece>)
    ensures |qs| == |ps|
  {
    seq(|ps|, i requires 0 <= i < |ps| => FillPiece(ps[i], name, value))
  }

  /** A placeholder for another name does not begin an occurrence of this one. */
  lemma HoleMismatch(n: string, name: string, rest: string)
    requires BraceFree(n) && BraceFree(name) && n != name
    ensures !StartsWith(Placeholder(n) + rest, Placeholder(name))
  {
    var s := Placeholder(n) + rest;
    var pat := Placeholder(name);
    if |pat| <= |s| {
      if |name| < |n| {
        assert n[|name|] in n;
        assert s[..|pat|][|name| + 1] != pat[|name| + 1];
      } else if |name| > |n| {
        assert name[|n|] in name;
        assert s[..|pat|][|n| + 1] != pat[|n| + 1];
      } else {
        var k :| 0 <= k < |n| && n[k] != name[k];
        assert s[..|pat|][k + 1] != pat[k + 1];
      }
    }
  }

  /** A placeholder for another name is copied through a replace unchanged. */
  lemma ReplaceAllOtherHole(n: string, name: string, rest: string, value: string)
    requires BraceFree(n) && BraceFree(name) && n != name
    ensures ReplaceAll(Placeholder(n) + rest, Placeholder(name), value)
         == Placeholder(n) + ReplaceAll(rest, Placeholder(name), value)
  {
    var s := Placeholder(n) + rest;
    HoleMismatch(n, name, rest);
    assert s[1..] == (n + "}") + rest;
    ReplaceAllSkip(n + "}", rest, Placeholder(name), value);
  }

  /** One piece followed by any text: the piece is filled and the scan carries on after it. */
  lemma ReplacePiece(p: Piece, rest: string, name: string, value: string)
    requires BraceFree(Content(p)) && BraceFree(name)
    ensures ReplaceAll(RenderPiece(p) + rest, Placeholder(name), value)
         == RenderPiece(FillPiece(p, name, value)) + ReplaceAll(rest, Placeholder(name), value)
  {
    match p
    case Lit(t) =>
      ReplaceAllSkip(t, rest, Placeholder(name), value);
    case Hole(n) =>
      if n == name {
        ReplaceAllHead(rest, Placeholder(name), value);
      } else {
        ReplaceAllOtherHole(n, name, rest, value);
      }
  }

  /** Replacing one placeholder in a rendered template renders the template with that placeholder filled. */
  lemma {:induction false} RenderReplace(ps: seq<Piece>, name: string, value: string)
    requires WellFormed(ps) && BraceFree(name)
    ensures ReplaceAll(Render(ps), Placeholder(name), value) == Render(Fill(ps, name, value))
    decreases |ps|
  {
    if ps != [] {
      assert WellFormed(ps[1..]) by {
        forall i | 0 <= i < |ps[1..]| ensures BraceFree(Content(ps[1..][i])) {
          assert ps[1..][i] == ps[i + 1];
        }
      }
      var qs := Fill(ps, name, value);
      var tail := ReplaceAll(Render(ps[1..]), Placeholder(name), value);
      RenderReplace(ps[1..], name, value);
      assert tail == Render(Fill(ps[1..], name, value));
      ReplacePiece(ps[0], Render(ps[1..]), name, value);
      assert Render(ps) == RenderPiece(ps[0]) + Render(ps[1..]);
      assert qs[0] == FillPiece(ps[0], name, value);
      assert qs[1..] == Fill(ps[1..], name, value);
      assert Render(qs) == RenderPiece(qs[0]) + Render(qs[1..]);
    }
  }

  /** Filling one parameter, then substituting the rest, is substituting all of them. */
  lemma SubstAfterFill(ps: seq<Piece>, params: seq<Param>)
    requires params != []
    ensures Subst(Fill(ps, params[0].name, params[0].value), params[1..]) == Subst(ps, params)
  {
    var p := params[0];
    forall i | 0 <= i < |ps|
      ensures SubstPiece(FillPiece(ps[i], p.name, p.value), params[1..]) == SubstPiece(ps[i], params)
    {
      if ps[i].Hole? && ps[i].name != p.name {
        assert Lookup(params, ps[i].name) == Lookup(params[1..], ps[i].name);
      }
    }
  }

  /**
   * The placeholder theorem for `t`: with brace-free literals, names and
   * values, running the substitution loop over a rendered template replaces
   * every placeholder that has a parameter by its value and leaves every
   * other placeholder literally in place.
   */
  lemma {:induction false} InterpolateTemplate(ps: seq<Piece>, params: seq<Param>)
    requires WellFormed(ps)
    requires forall i :: 0 <= i < |params| ==> BraceFree(params[i].name) && BraceFree(params[i].value)
    ensures Interpolate(Render(ps), params) == Render(Subst(ps, params))
    decreases |params|
  {
    if params == [] {
      assert Subst(ps, params) == ps;
    } else {
      var p := params[0];
      assert BraceFree(p.name) && BraceFree(p.value);
      RenderReplace(ps, p.name, p.value);
      var filled := Fill(ps, p.name, p.value);
      assert WellFormed(filled) by {
        forall i | 0 <= i < |filled| ensures BraceFree(Content(filled[i])) {
          assert BraceFree(Content(ps[i]));
        }
      }
      assert forall i :: 0 <= i < |params[1..]| ==> params[1..][i] == params[i + 1];
      InterpolateTemplate(filled, params[1..]);
      SubstAfterFill(ps, params);
    }
  }

  /** `t` on a template-shaped entry: the placeholder theorem read through the registry. */
  lemma TranslateTemplate(r: Registry, key: string, ps: seq<Piece>, params: seq<Param>)
    requires key in r.messages && r.messages[key] != "" && r.messages[key] == Render(ps)
    requires WellFormed(ps)
    requires forall i :: 0 <= i < |params| ==> BraceFree(params[i].name) && BraceFree(params[i].value)
    ensures T(r, key, params) == Render(Subst(ps, params))
  {
    InterpolateTemplate(ps, params);
  }

  /** A message without an opening brace holds no placeholder, so no parameter touches it. */
  lemma {:induction false} NoOpenBraceUntouched(s: string, params: seq<Param>)
    requires '{' !in s
    ensures Interpolate(s, params) == s
    decreases |params|
  {
    if params != [] {
      var ph := Placeholder(params[0].name);
      ReplaceAllAbsent(s, ph, params[0].value);
      NoOpenBraceUntouched(s, params[1..]);
    }
  }

  /**
   * A key with no entry, or an empty one, and no opening brace comes back
   * unchanged, whatever the parameters' names and values.
   */
  lemma MissingKeyFallsBack(r: Registry, key: string, params: seq<Param>)
    requires key !in r.messages || r.messages[key] == ""
    requires '{' !in key
    ensures T(r, key, params) == key
  {
    NoOpenBraceUntouched(key, params);
  }

  /**
   * Substitution is sequential: a value that itself contains `{q}` is
   * rewritten when `q` comes later among the parameters, and kept when `q`
   * comes earlier.
   */
  lemma SubstitutionIsSequential()
    ensures Interpolate("{p}", [Param("p", "{q}"), Param("q", "x")]) == "x"
    ensures Interpolate("{p}", [Param("q", "x"), Param("p", "{q}")]) == "{q}"
  {
    ReplaceAllHead("", "{p}", "{q}");
    assert "{p}" + "" == "{p}";
    ReplaceAllHead("", "{q}", "x");
    assert "{q}" + "" == "{q}";
    assert Placeholder("p") == "{p}" && Placeholder("q") == "{q}";
    ReplaceAllOtherHole("p", "q", "", "x");
    assert ReplaceAll("{p}", "{q}", "x") == "{p}";
  }

  // ---------------------------------------------------------------------
  // Properties relating several calls.

  /** After a successful switch, `getLanguage` reports the new code and lookups use its table. */
  lemma SetThenGet(r: Registry, st: Storage, c: Catalog, code: string, key: string)
    requires code in SupportedLanguages()
    ensures SetLanguage(r, st, c, code).registry.language == code
    ensures Resolve(SetLanguage(r, st, c, code).registry, key)
         == Resolve(Registry(code, TableFor(c, code).value), key)
  {
  }

  /** The persisted choice survives a restart: constructing from the written storage gives the same registry. */
  lemma {:induction false} PersistenceRoundTrip(r: Registry, st: Storage, c: Catalog, code: string)
    requires code in SupportedLanguages()
    ensures Create(SetLanguage(r, st, c, code).storage, c) == SetLanguage(r, st, c, code).registry
  {
    var o := SetLanguage(r, st, c, code);
    assert Load(o.storage, LanguageKey) == Str(code);
    assert code != "";
  }

  /** Re-selecting the active supported language changes nothing but the stored copy of it. */
  lemma SetLanguageIdempotent(r: Registry, st: Storage, c: Catalog, code: string)
    requires code in SupportedLanguages()
    ensures var o := SetLanguage(r, st, c, code);
            SetLanguage(o.registry, o.storage, c, code) == o
  {
  }

  /** A fresh start with nothing stored selects the Chinese table under the default code. */
  lemma FreshStart(c: Catalog)
    ensures Create(map[], c) == Registry(DefaultLanguage, c.zh)
  {
  }

  /** An unsupported stored code is reported by `getLanguage` yet the Chinese table is used. */
  lemma UnsupportedStoredCode(st: Storage, c: Catalog, s: string)
    requires Load(st, LanguageKey) == Str(s) && s != "" && s !in SupportedLanguages()
    ensures Create(st, c).language == s && Create(st, c).messages == c.zh
  {
  }
}
