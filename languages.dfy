/** The translator's fixed table from a language's display name to the locale
    code sent with a text-to-speech request. */
module Languages {
  import opened JsText

  /** English and nine Indian languages, each with its Indian locale. */
  const SupportedLanguages: map<string, string> := map[
    "English" := "en-IN",
    "Hindi" := "hi-IN",
    "Tamil" := "ta-IN",
    "Telugu" := "te-IN",
    "Kannada" := "kn-IN",
    "Malayalam" := "ml-IN",
    "Bengali" := "bn-IN",
    "Marathi" := "mr-IN",
    "Gujarati" := "gu-IN",
    "Punjabi" := "pa-IN"
  ]

  /** A locale code of the table's form: two lower-case letters, then "-IN". */
  predicate IsIndianLocale(code: string) {
    |code| == 5 && 'a' <= code[0] <= 'z' && 'a' <= code[1] <= 'z' && code[2..] == "-IN"
  }

  /** `SUPPORTED_LANGUAGES[name]`, which is `undefined` for a name outside the
      table that is not also a property the object literal inherits. */
  function LanguageCode(name: string): (r: Option<string>)
    ensures r.Some? <==> name in SupportedLanguages
    ensures r.Some? ==> IsIndianLocale(r.value)
  {
    if name in SupportedLanguages then Some(SupportedLanguages[name]) else None
  }

  /** Two different languages never share a locale code, so a speech request
      names the language it is for. */
  lemma CodesDistinct(a: string, b: string)
    requires a in SupportedLanguages && b in SupportedLanguages && a != b
    ensures LanguageCode(a) != LanguageCode(b)
  {
  }

  /** The table has exactly ten entries. */
  lemma TableSize()
    ensures |SupportedLanguages| == 10
  {
  }
}
