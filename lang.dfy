/** The three reply languages and the `dict.get(lang, table['ru'])` lookup
  * every localised table of the bot uses. */
module Lang {

  /** A text in each of the three languages the bot answers in. */
  datatype LangTable = LangTable(ru: string, uk: string, en: string)

  /** The language codes the bot produces. */
  predicate IsLangCode(code: string)
  {
    code == "ru" || code == "uk" || code == "en"
  }

  /** `table.get(code, table['ru'])`, and equally a `(ru, uk, en)` tuple read
    * at `{'ru': 0, 'uk': 1, 'en': 2}.get(code, 0)`. */
  function Pick(t: LangTable, code: string): (r: string)
    ensures r == t.ru || r == t.uk || r == t.en
  {
    if code == "uk" then t.uk else if code == "en" then t.en else t.ru
  }

  /** Any code other than 'uk' and 'en' reads the Russian entry. */
  lemma PickFallsBackToRu(t: LangTable, code: string)
    requires code != "uk" && code != "en"
    ensures Pick(t, code) == t.ru
  {
  }

  /** A table whose three entries are non-empty gives a non-empty text. */
  predicate Filled(t: LangTable)
  {
    t.ru != "" && t.uk != "" && t.en != ""
  }
}
