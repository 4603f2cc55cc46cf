/** The translation lookup: a key in the chosen language, or the key itself. */
module Translations {
  import opened Options

  /** The two catalogues, one per supported language code ("en" and "id"). */
  datatype Catalog = Catalog(en: map<string, string>, id: map<string, string>)

  /** `a || b` on optional strings: a missing value and the empty string are both falsy. */
  function Or(a: Option<string>, b: string): string
  {
    if a.Some? && a.value != "" then a.value else b
  }

  /**
    The language `t` uses: the explicit argument, else the stored language,
    else "en". The stored value is not checked against the supported codes.
   */
  function ChosenLanguage(lang: Option<string>, stored: Option<string>): string
  {
    Or(lang, Or(stored, "en"))
  }

  /**
    The property names every plain JavaScript object inherits from
    `Object.prototype`. Indexing `{ en, id }` with one of them finds that
    inherited member instead of failing.
   */
  predicate InheritedName(language: string)
  {
    language in {"constructor", "toString", "toLocaleString", "valueOf",
                 "hasOwnProperty", "isPrototypeOf", "propertyIsEnumerable",
                 "__proto__", "__defineGetter__", "__defineSetter__",
                 "__lookupGetter__", "__lookupSetter__"}
  }

  /**
    The catalogue of a language code; None for a code that has none. An
    inherited member has no translation keys of its own, so it acts as an
    empty catalogue.
   */
  function CatalogOf(catalog: Catalog, language: string): Option<map<string, string>>
  {
    if language == "en" then Some(catalog.en)
    else if language == "id" then Some(catalog.id)
    else if InheritedName(language) then Some(map[])
    else None
  }

  /**
    `t(key, lang?)`: the chosen language's non-empty entry for `key`, or `key`
    itself. None stands for the error a lookup in a missing catalogue throws.
   */
  function T(catalog: Catalog, key: string, lang: Option<string>, stored: Option<string>): (r: Option<string>)
    ensures r.None? <==> CatalogOf(catalog, ChosenLanguage(lang, stored)).None?
    ensures r.Some? ==> r.value == key || r.value in CatalogOf(catalog, ChosenLanguage(lang, stored)).value.Values
    ensures InheritedName(ChosenLanguage(lang, stored)) ==> r == Some(key)
  {
    match CatalogOf(catalog, ChosenLanguage(lang, stored))
    case None => None
    case Some(entries) => Some(if key in entries && entries[key] != "" then entries[key] else key)
  }

  /** A non-empty entry is returned; a missing or empty one falls back to the key. */
  lemma LookupOrKey(catalog: Catalog, key: string, lang: Option<string>, stored: Option<string>)
    requires CatalogOf(catalog, ChosenLanguage(lang, stored)).Some?
    ensures var entries := CatalogOf(catalog, ChosenLanguage(lang, stored)).value;
      (key in entries && entries[key] != "" ==> T(catalog, key, lang, stored) == Some(entries[key]))
      && (key !in entries || entries[key] == "" ==> T(catalog, key, lang, stored) == Some(key))
  {
  }

  /** An explicit language wins over whatever is stored. */
  lemma ExplicitLanguageWins(catalog: Catalog, key: string, lang: string, stored1: Option<string>, stored2: Option<string>)
    requires lang != ""
    ensures T(catalog, key, Some(lang), stored1) == T(catalog, key, Some(lang), stored2)
  {
  }

  /** With no argument and nothing stored, English is used. */
  lemma DefaultsToEnglish(catalog: Catalog, key: string)
    ensures T(catalog, key, None, None) == T(catalog, key, Some("en"), None)
    ensures T(catalog, key, None, None).Some?
  {
  }

  /** What `useTranslation` hands out: the language it read and the bound translate function. */
  datatype Translator = Translator(language: string)

  /** `useTranslation()`: reads the stored language once, defaulting to "en". */
  function UseTranslation(stored: Option<string>): (r: Translator)
    ensures r.language != ""
  {
    Translator(Or(stored, "en"))
  }

  /** The translate function of a Translator: `t(key, language)`. */
  function Translate(catalog: Catalog, tr: Translator, key: string): Option<string>
  {
    T(catalog, key, Some(tr.language), None)
  }

  /** Translating through `useTranslation` is `t` with the stored language and no argument. */
  lemma UseTranslationIsStoredLookup(catalog: Catalog, stored: Option<string>, key: string)
    ensures Translate(catalog, UseTranslation(stored), key) == T(catalog, key, None, stored)
  {
  }
}
