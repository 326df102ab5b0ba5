/**
 * `resolveThemeMessages` (dist/i18n/theme.js): the message tree of a theme for
 * a locale, falling back to the default locale and then to an empty tree.
 */
module ThemeMessages {
  import opened Js

  /** A message tree: strings at the leaves, nested objects inside. */
  datatype MessageTree = Text(text: string) | Tree(children: map<string, MessageTree>)

  /** The messages of one theme in one locale; `{}` is the empty map. */
  type Messages = map<string, MessageTree>

  /** Theme id, then locale, to messages. */
  type Registry = map<string, map<string, Messages>>

  /** `defaultLocale = 'en'`. */
  const DefaultLocale: string := "en"

  /** `!themeId` for a string or `undefined` theme id. */
  predicate ThemeIdMissing(themeId: Option<string>) {
    themeId.None? || themeId.value == ""
  }

  /** `resolveThemeMessages(registry, themeId, locale, defaultLocale)`. */
  function ResolveThemeMessages(registry: Registry, themeId: Option<string>, locale: string, defaultLocale: string): (r: Messages)
    ensures ThemeIdMissing(themeId) || themeId.value !in registry ==> r == map[]
  {
    if ThemeIdMissing(themeId) then map[]
    else if themeId.value !in registry then map[]
    else
      var table := registry[themeId.value];
      if locale in table then table[locale]
      else if defaultLocale in table then table[defaultLocale]
      else map[]
  }

  /** The call without a default locale. */
  function ResolveWithEnglishDefault(registry: Registry, themeId: Option<string>, locale: string): (r: Messages)
    ensures (&& !ThemeIdMissing(themeId)
             && themeId.value in registry
             && locale !in registry[themeId.value]
             && DefaultLocale in registry[themeId.value])
            ==> r == registry[themeId.value][DefaultLocale]
  {
    ResolveThemeMessages(registry, themeId, locale, DefaultLocale)
  }

  /** The three tiers in order: the requested locale when the theme has it,
      else the default locale when it has that, else nothing. */
  lemma LocaleFallbackOrder(registry: Registry, id: string, locale: string, defaultLocale: string)
    requires id != "" && id in registry
    ensures var table := registry[id];
            var r := ResolveThemeMessages(registry, Some(id), locale, defaultLocale);
            && (locale in table ==> r == table[locale])
            && (locale !in table && defaultLocale in table ==> r == table[defaultLocale])
            && (locale !in table && defaultLocale !in table ==> r == map[])
  {
  }

  /** A non-empty result is one of the theme's own tables, for the requested
      or the default locale. */
  lemma ResultComesFromTheme(registry: Registry, themeId: Option<string>, locale: string, defaultLocale: string)
    requires ResolveThemeMessages(registry, themeId, locale, defaultLocale) != map[]
    ensures !ThemeIdMissing(themeId) && themeId.value in registry
    ensures var table := registry[themeId.value];
            var r := ResolveThemeMessages(registry, themeId, locale, defaultLocale);
            (locale in table && r == table[locale]) || (defaultLocale in table && r == table[defaultLocale])
  {
  }

  /** Asking for the default locale itself is the plain lookup. */
  lemma SameLocaleIsLookup(registry: Registry, id: string, locale: string)
    requires id != "" && id in registry
    ensures ResolveThemeMessages(registry, Some(id), locale, locale) ==
            (if locale in registry[id] then registry[id][locale] else map[])
  {
  }

  /** Other themes in the registry do not affect the result. */
  lemma OtherThemesIgnored(registry: Registry, id: string, other: string, table: map<string, Messages>, locale: string, defaultLocale: string)
    requires other != id
    ensures ResolveThemeMessages(registry[other := table], Some(id), locale, defaultLocale) ==
            ResolveThemeMessages(registry, Some(id), locale, defaultLocale)
  {
  }
}
