/**
  * Translations (`src/ecosystem/plugins/i18n/i18n.ts` and the legacy
  * `src/ecosystem/i18n/i18n.ts`): placeholder substitution, the walk down a
  * dotted key path, the request's language, and the middleware that picks
  * that language from a cookie, a header or the default.
  */
module I18n {
  import opened Base
  import opened Text
  import opened Cookies
  import opened RequestContext

  /** A loaded translation tree: a phrase, a table of keys, or an array. */
  datatype Translation =
    | Phrase(s: string)
    | Table(entries: Dict<Translation>)
    | List(items: seq<Translation>)

  /**
    * The plugin's module-level store once `load` has run: the cookie and
    * header names to read, the default language, the languages found on
    * disk and each language's translations.
    */
  datatype I18nConfig = I18nConfig(path: string, cookie: Option<string>, header: Option<string>,
                                   language: string, languages: seq<string>,
                                   translations: Dict<Translation>)

  /** A replacement map: an object's own entries in key order; `None` is an undefined value. */
  type Replacements = seq<(string, Option<string>)>

  /** What `translate` comes to: a value, or the TypeError `replaceAll` on a non-string raises. */
  datatype Outcome = Found(value: Translation) | TypeError

  /** The name both generations fall back to for the cookie and the header. */
  const AcceptLanguage: string := "Accept-Language"

  // ---------------------------------------------------------------------------
  // replace
  // ---------------------------------------------------------------------------

  /** The placeholder `${key}`. */
  function Placeholder(key: string): (r: string)
    ensures r != [] && StartsWith(r, "${")
  {
    "${" + key + "}"
  }

  /**
    * The text once every non-empty key of the map has had each `${key}`
    * replaced by its value (an undefined value by the empty string), key
    * after key in map order.
    */
  function Replace(t: string, replace: Replacements): string
    decreases |replace|
  {
    if replace == [] then t
    else
      var before := Replace(t, replace[..|replace| - 1]);
      var (key, value) := replace[|replace| - 1];
      if key == "" then before else ReplaceAllExpanding(before, Placeholder(key), value.GetOr(""))
  }

  /** `replace(translation, replace)`. */
  method ReplacePlaceholders(translation: string, replace: Replacements) returns (replaced: string)
    ensures replaced == Replace(translation, replace)
  {
    replaced := translation;
    var i := 0;
    while i < |replace|
      invariant i <= |replace|
      invariant replaced == Replace(translation, replace[..i])
    {
      assert replace[..i + 1][..i] == replace[..i];
      var (key, value) := replace[i];
      if key != "" {
        replaced := ReplaceAllExpanding(replaced, Placeholder(key), value.GetOr(""));
      }
      i := i + 1;
    }
    assert replace[..i] == replace;
  }

  /** An occurrence of a string is an occurrence of each of its prefixes. */
  lemma ContainsPrefix(s: string, p: string, q: string)
    requires Contains(s, p) && StartsWith(p, q)
    ensures Contains(s, q)
  {
    var i :| 0 <= i <= |s| - |p| && OccursAt(s, p, i);
    assert s[i..i + |q|] == s[i..i + |p|][..|q|];
    assert OccursAt(s, q, i);
  }

  /** Text holding no `${` comes back unchanged, whatever the map. */
  lemma {:induction false} ReplaceKeepsPlainText(t: string, replace: Replacements)
    requires !Contains(t, "${")
    ensures Replace(t, replace) == t
    decreases |replace|
  {
    if replace != [] {
      ReplaceKeepsPlainText(t, replace[..|replace| - 1]);
      var (key, value) := replace[|replace| - 1];
      if key != "" {
        if Contains(t, Placeholder(key)) {
          ContainsPrefix(t, Placeholder(key), "${");
        }
        ReplaceAllExpandingAbsent(t, Placeholder(key), value.GetOr(""));
      }
    }
  }

  /** A map whose keys are all empty changes nothing. */
  lemma {:induction false} ReplaceSkipsEmptyKeys(t: string, replace: Replacements)
    requires forall j :: 0 <= j < |replace| ==> replace[j].0 == ""
    ensures Replace(t, replace) == t
    decreases |replace|
  {
    if replace != [] {
      ReplaceSkipsEmptyKeys(t, replace[..|replace| - 1]);
    }
  }

  /**
    * One more key replaces EVERY `${key}` of the text so far by its value,
    * or by the empty string when the value is undefined, and keeps the
    * text between the occurrences as it is. This holds for a value without
    * `$`; `PlaceholderSubstituted` says what a `$` in the value does.
    */
  lemma ReplaceEveryOccurrence(t: string, replace: Replacements, key: string, value: Option<string>)
    requires key != "" && '$' !in value.GetOr("")
    ensures Replace(t, replace + [(key, value)]) ==
            Join(SplitOn(Replace(t, replace), Placeholder(key)), value.GetOr(""))
    ensures value.None? ==>
              Replace(t, replace + [(key, value)]) == Join(SplitOn(Replace(t, replace), Placeholder(key)), "")
  {
    var r := replace + [(key, value)];
    assert r[..|r| - 1] == replace;
    ReplaceAllLiteral(Replace(t, replace), Placeholder(key), value.GetOr(""));
    ReplaceAllIsSplitJoin(Replace(t, replace), Placeholder(key), value.GetOr(""));
  }

  /**
    * The value is a `replaceAll` replacement string, not literal text: a text
    * ending in its only placeholder gets the substitution of the value for
    * it, where `$&` stands for the placeholder, `` $` `` for the text before it,
    * `$'` for the (empty) text after it and `$$` for one `$`.
    */
  lemma PlaceholderSubstituted(a: string, key: string, value: string)
    requires key != "" && '$' !in a
    ensures Replace(a + Placeholder(key), [(key, Some(value))]) == a + Substitution(value, Placeholder(key), a, "")
  {
    var p := Placeholder(key);
    var s := a + p;
    var r := [(key, Some(value))];
    assert r[..0] == [];
    assert Replace(s, r) == ReplaceAllFrom(s, p, value, 0);
    forall k | 0 <= k < |a| ensures !OccursAt(s, p, k) {
      assert s[k] == a[k] != '$';
    }
    ReplaceAllFromSkip(s, p, value, 0, |a|);
    assert s[|a|..|a| + |p|] == p;
    assert s[..|a|] == a && s[0..|a|] == a && s[|a| + |p|..] == "";
  }

  /** `replace("Total: ${p}", {p: "$&"})` keeps the placeholder, and `{p: "$$5"}` gives `Total: $5`. */
  lemma DollarValues()
    ensures Replace("Total: ${p}", [("p", Some("$&"))]) == "Total: ${p}"
    ensures Replace("Total: ${p}", [("p", Some("$$5"))]) == "Total: $5"
  {
    assert "Total: ${p}" == "Total: " + Placeholder("p");
    PlaceholderSubstituted("Total: ", "p", "$&");
    PlaceholderSubstituted("Total: ", "p", "$$5");
    assert Substitution("$&", "${p}", "Total: ", "") == "${p}";
    assert Substitution("5", "${p}", "Total: ", "") == "5";
    assert Substitution("$$5", "${p}", "Total: ", "") == "$5";
  }

  // ---------------------------------------------------------------------------
  // getLanguage
  // ---------------------------------------------------------------------------

  /**
    * `getLanguage()`: the `language` of the `i18n` entry in the store of the
    * request context in scope (`ambient`, none outside a request), else the
    * configured default.
    */
  function GetLanguage(ambient: Option<Dict<Value>>, config: I18nConfig): string {
    match ambient
    case None => config.language
    case Some(store) =>
      var i18n := Lookup(store, "i18n");
      if i18n.Some? && i18n.value.Obj? then
        var language := Lookup(i18n.value.fields, "language");
        if language.Some? && language.value.Str? then language.value.s else config.language
      else config.language
  }

  /** The `i18n` entry the middleware writes. */
  function Selected(language: string): Value {
    Obj([("language", Str(language))])
  }

  /** Once a middleware has written the language, `getLanguage` reads it back. */
  lemma GetLanguageReadsSelection(store: Dict<Value>, config: I18nConfig, language: string)
    ensures GetLanguage(Some(Put(store, "i18n", Selected(language))), config) == language
  {
  }

  /** Without a request context, or before any selection, the default is the language. */
  lemma GetLanguageDefault(ambient: Option<Dict<Value>>, config: I18nConfig)
    requires ambient.None? || Lookup(ambient.value, "i18n").None?
    ensures GetLanguage(ambient, config) == config.language
  {
  }

  // ---------------------------------------------------------------------------
  // translate
  // ---------------------------------------------------------------------------

  /**
    * `translation[key] ?? ""`: a table's entry; an array's element or a
    * phrase's character at a canonical index; otherwise the empty phrase.
    */
  function Step(t: Translation, key: string): Translation {
    match t
    case Table(entries) => Lookup(entries, key).GetOr(Phrase(""))
    case List(items) =>
      if CanonicalIndex(key) && DigitsValue(key) < |items| then items[DigitsValue(key)] else Phrase("")
    case Phrase(s) =>
      if CanonicalIndex(key) && DigitsValue(key) < |s| then Phrase([s[DigitsValue(key)]]) else Phrase("")
  }

  /** The value reached by stepping through the keys in order, skipping empty keys. */
  function Walk(t: Translation, keys: seq<string>): Translation
    decreases |keys|
  {
    if keys == [] then t
    else
      var before := Walk(t, keys[..|keys| - 1]);
      var key := keys[|keys| - 1];
      if key == "" then before else Step(before, key)
  }

  /** `replaceAll` applied for each non-empty key; it raises unless the value is a phrase. */
  function Substituted(t: Translation, replace: Replacements): Outcome {
    if t.Phrase? then Found(Phrase(Replace(t.s, replace)))
    else if exists j | 0 <= j < |replace| :: replace[j].0 != "" then TypeError
    else Found(t)
  }

  /**
    * `translate(path, {language, replace})`: the language's translations
    * (the path itself when there are none, or they are the empty phrase),
    * walked along the `.`-separated path, then substituted when a map is given.
    */
  function Translated(config: I18nConfig, ambient: Option<Dict<Value>>, path: string,
                      language: Option<string>, replace: Option<Replacements>): Outcome
  {
    match Lookup(config.translations, language.GetOr(GetLanguage(ambient, config)))
    case None => Found(Phrase(path))
    case Some(translations) =>
      if translations == Phrase("") then Found(Phrase(path))
      else
        var found := Walk(translations, Split(path, '.'));
        match replace
        case None => Found(found)
        case Some(r) => Substituted(found, r)
  }

  /** The `replace` half of `translate`. */
  method Substitute(t: Translation, replace: Replacements) returns (r: Outcome)
    ensures r == Substituted(t, replace)
  {
    var translation := t;
    var i := 0;
    while i < |replace|
      invariant i <= |replace|
      invariant t.Phrase? ==> translation == Phrase(Replace(t.s, replace[..i]))
      invariant !t.Phrase? ==> translation == t && forall j :: 0 <= j < i ==> replace[j].0 == ""
    {
      assert replace[..i + 1][..i] == replace[..i];
      var (key, value) := replace[i];
      if key != "" {
        if !translation.Phrase? {
          return TypeError;
        }
        translation := Phrase(ReplaceAllExpanding(translation.s, Placeholder(key), value.GetOr("")));
      }
      i := i + 1;
    }
    assert replace[..i] == replace;
    r := Found(translation);
  }

  /** `translate`. */
  method Translate(config: I18nConfig, ambient: Option<Dict<Value>>, path: string,
                   language: Option<string>, replace: Option<Replacements>) returns (r: Outcome)
    ensures r == Translated(config, ambient, path, language, replace)
  {
    var translations := Lookup(config.translations, language.GetOr(GetLanguage(ambient, config)));
    if translations.None? || translations.value == Phrase("") {
      return Found(Phrase(path));
    }
    var split := Split(path, '.');
    var translation := translations.value;
    var i := 0;
    while i < |split|
      invariant i <= |split|
      invariant translation == Walk(translations.value, split[..i])
    {
      assert split[..i + 1][..i] == split[..i];
      var key := split[i];
      if key != "" {
        translation := Step(translation, key);
      }
      i := i + 1;
    }
    assert split[..i] == split;
    if replace.Some? {
      r := Substitute(translation, replace.value);
    } else {
      r := Found(translation);
    }
  }

  /** Walking a path is walking its first part, then its second from there. */
  lemma {:induction false} WalkAppend(t: Translation, a: seq<string>, b: seq<string>)
    ensures Walk(t, a + b) == Walk(Walk(t, a), b)
    decreases |b|
  {
    if b == [] {
      assert a + b == a;
    } else {
      var ab := a + b;
      assert ab[..|ab| - 1] == a + b[..|b| - 1];
      assert ab[|ab| - 1] == b[|b| - 1];
      WalkAppend(t, a, b[..|b| - 1]);
    }
  }

  /** An empty segment (a leading, doubled or trailing `.`) changes nothing. */
  lemma EmptySegmentSkipped(t: Translation, a: seq<string>, b: seq<string>)
    ensures Walk(t, a + [""] + b) == Walk(t, a + b)
  {
    WalkAppend(t, a + [""], b);
    WalkAppend(t, a, [""]);
    WalkAppend(t, a, b);
  }

  /** From the empty phrase every further key leads to the empty phrase again. */
  lemma {:induction false} WalkFromEmpty(keys: seq<string>)
    ensures Walk(Phrase(""), keys) == Phrase("")
    decreases |keys|
  {
    if keys != [] {
      WalkFromEmpty(keys[..|keys| - 1]);
    }
  }

  /** A key a table does not hold yields `""`, and so does the rest of the path. */
  lemma MissingKeyEmpty(t: Translation, a: seq<string>, key: string, b: seq<string>)
    requires key != ""
    requires Walk(t, a).Table? && Lookup(Walk(t, a).entries, key).None?
    ensures Walk(t, a + [key] + b) == Phrase("")
  {
    WalkAppend(t, a + [key], b);
    WalkAppend(t, a, [key]);
    WalkFromEmpty(b);
  }

  /** A table entry reached by a key is the value found under it. */
  lemma TableStep(entries: Dict<Translation>, key: string, value: Translation)
    requires key != "" && Lookup(entries, key) == Some(value)
    ensures Walk(Table(entries), [key]) == value
  {
    assert [key][..0] == [];
  }

  /** A language without translations, or with the empty phrase, yields the path itself. */
  lemma MissingLanguageReturnsPath(config: I18nConfig, ambient: Option<Dict<Value>>, path: string,
                                   language: Option<string>, replace: Option<Replacements>)
    requires Lookup(config.translations, language.GetOr(GetLanguage(ambient, config))) in {None, Some(Phrase(""))}
    ensures Translated(config, ambient, path, language, replace) == Found(Phrase(path))
  {
  }

  /**
    * With translations for the language, `translate` substitutes into the
    * phrase the path reaches exactly as `replace` does, and raises only when
    * a non-phrase meets a non-empty key.
    */
  lemma TranslateReplacesLikeReplace(config: I18nConfig, ambient: Option<Dict<Value>>, path: string,
                                     language: Option<string>, replace: Replacements)
    requires Lookup(config.translations, language.GetOr(GetLanguage(ambient, config))).Some?
    requires Lookup(config.translations, language.GetOr(GetLanguage(ambient, config))).value != Phrase("")
    ensures var found := Walk(Lookup(config.translations, language.GetOr(GetLanguage(ambient, config))).value,
                              Split(path, '.'));
            && (found.Phrase? ==>
                  Translated(config, ambient, path, language, Some(replace)) == Found(Phrase(Replace(found.s, replace))))
            && (Translated(config, ambient, path, language, Some(replace)) == TypeError <==>
                  !found.Phrase? && exists j | 0 <= j < |replace| :: replace[j].0 != "")
  {
  }

  // ---------------------------------------------------------------------------
  // the middlewares
  // ---------------------------------------------------------------------------

  /** `getCookies(headers)`. */
  function Jar(headers: Headers): Dict<string> {
    PutAll([], CookiePairs(CookiePieces(headers)))
  }

  /**
    * The current middleware's candidate: the configured cookie, else the
    * configured header (both `Accept-Language` when unset), else `getLanguage()`.
    */
  function CoreCandidate(config: I18nConfig, headers: Headers, ambient: Option<Dict<Value>>): string {
    match Lookup(Jar(headers), config.cookie.GetOr(AcceptLanguage))
    case Some(c) => c
    case None =>
      match Lookup(headers, Lower(config.header.GetOr(AcceptLanguage)))
      case Some(h) => h
      case None => GetLanguage(ambient, config)
  }

  /** The candidate when it is one of the languages, else `getLanguage()`. */
  function CoreLanguage(config: I18nConfig, headers: Headers, ambient: Option<Dict<Value>>): string {
    var candidate := CoreCandidate(config, headers, ambient);
    if candidate in config.languages then candidate else GetLanguage(ambient, config)
  }

  /**
    * The current `i18n()` middleware's work before it returns `next()`:
    * `ambient` is the store of the request context in scope.
    */
  method CoreI18n(config: I18nConfig, context: Context, ambient: Option<Dict<Value>>)
    modifies context`store
    ensures context.store == Put(old(context.store), "i18n", Selected(CoreLanguage(config, context.raw.headers, ambient)))
  {
    var cookies := GetCookies(context.raw.headers);
    var language: string;
    var cookie := Lookup(cookies, config.cookie.GetOr(AcceptLanguage));
    if cookie.Some? {
      language := cookie.value;
    } else {
      var header := Lookup(context.raw.headers, Lower(config.header.GetOr(AcceptLanguage)));
      language := if header.Some? then header.value else GetLanguage(ambient, config);
    }
    if language !in config.languages {
      language := GetLanguage(ambient, config);
    }
    context.store := Put(context.store, "i18n", Selected(language));
  }

  /** The chosen language is a listed one or what `getLanguage()` answers. */
  lemma CoreLanguageSupported(config: I18nConfig, headers: Headers, ambient: Option<Dict<Value>>)
    ensures CoreLanguage(config, headers, ambient) in config.languages
            || CoreLanguage(config, headers, ambient) == GetLanguage(ambient, config)
    ensures GetLanguage(ambient, config) in config.languages ==> CoreLanguage(config, headers, ambient) in config.languages
  {
  }

  /**
    * The cookie wins over the header, the header over the default, each
    * only when it names a listed language.
    */
  lemma CorePriority(config: I18nConfig, headers: Headers, ambient: Option<Dict<Value>>)
    ensures var cookie := Lookup(Jar(headers), config.cookie.GetOr(AcceptLanguage));
            var header := Lookup(headers, Lower(config.header.GetOr(AcceptLanguage)));
            && (cookie.Some? && cookie.value in config.languages ==>
                  CoreLanguage(config, headers, ambient) == cookie.value)
            && (cookie.None? && header.Some? && header.value in config.languages ==>
                  CoreLanguage(config, headers, ambient) == header.value)
            && (cookie.None? && header.None? ==>
                  CoreLanguage(config, headers, ambient) == GetLanguage(ambient, config))
            && (cookie.Some? && cookie.value !in config.languages ==>
                  CoreLanguage(config, headers, ambient) == GetLanguage(ambient, config))
  {
  }

  /** The legacy candidate: the `Accept-Language` cookie, else the `Accept-Language` header. */
  function LegacyCandidate(headers: Headers): Option<string> {
    match Lookup(Jar(headers), AcceptLanguage)
    case Some(c) => Some(c)
    case None => Lookup(headers, "accept-language")
  }

  /** The legacy candidate when it is one of the languages, else the default. */
  function LegacyLanguage(config: I18nConfig, headers: Headers): string {
    var candidate := LegacyCandidate(headers);
    if candidate.Some? && candidate.value in config.languages then candidate.value else config.language
  }

  /**
    * The legacy `i18nModule` middleware's work before it returns `next()`:
    * `memory` is what the app's memory holds under `i18n`.
    */
  method LegacyI18n(memory: Option<I18nConfig>, context: Context)
    modifies context`store
    ensures memory.None? ==> context.store == old(context.store)
    ensures memory.Some? ==>
              context.store == Put(old(context.store), "i18n", Selected(LegacyLanguage(memory.value, context.raw.headers)))
  {
    if memory.None? {
      return;
    }
    var cookies := GetCookies(context.raw.headers);
    var acceptLanguage := Lookup(cookies, AcceptLanguage);
    if acceptLanguage.None? {
      acceptLanguage := Lookup(context.raw.headers, "accept-language");
    }
    var language := if acceptLanguage.Some? && acceptLanguage.value in memory.value.languages
                    then acceptLanguage.value else memory.value.language;
    context.store := Put(context.store, "i18n", Selected(language));
  }

  /** The legacy language is a listed one or the default; listed whenever the default is. */
  lemma LegacyLanguageSupported(config: I18nConfig, headers: Headers)
    ensures LegacyLanguage(config, headers) in config.languages || LegacyLanguage(config, headers) == config.language
    ensures config.language in config.languages ==> LegacyLanguage(config, headers) in config.languages
  {
  }

  /**
    * As written, the legacy middleware reads only the `Accept-Language`
    * cookie and header: a language sent in the cookie the configuration
    * names is never chosen when neither `Accept-Language` source is present.
    */
  lemma LegacyIgnoresConfiguredCookie(config: I18nConfig, headers: Headers, language: string)
    requires config.cookie.Some? && Lookup(Jar(headers), config.cookie.value) == Some(language)
    requires language in config.languages && language != config.language
    requires Lookup(Jar(headers), AcceptLanguage).None? && Lookup(headers, "accept-language").None?
    ensures LegacyLanguage(config, headers) != language
    ensures LegacyLanguage(config, headers) == config.language
  {
  }

  /** The current middleware chooses the language that configured cookie carries. */
  lemma CoreHonoursConfiguredCookie(config: I18nConfig, headers: Headers, ambient: Option<Dict<Value>>, language: string)
    requires config.cookie.Some? && Lookup(Jar(headers), config.cookie.value) == Some(language)
    requires language in config.languages
    ensures CoreLanguage(config, headers, ambient) == language
  {
  }

  /** Likewise for a language sent in the header the configuration names. */
  lemma CoreHonoursConfiguredHeader(config: I18nConfig, headers: Headers, ambient: Option<Dict<Value>>, language: string)
    requires config.header.Some? && Lookup(headers, Lower(config.header.value)) == Some(language)
    requires Lookup(Jar(headers), config.cookie.GetOr(AcceptLanguage)).None?
    requires language in config.languages
    ensures CoreLanguage(config, headers, ambient) == language
  {
  }
}
