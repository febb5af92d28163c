/**
 * The initial country filter, derived from the browser's resolved locale
 * string (for example "en-US").
 */
module LocaleDetection {
  import opened Text

  /**
   * The lower-cased locale is searched for "us", "gb", "fr" and "de" in
   * that order; the first one found decides, and "US" is the fallback.
   */
  function DetectLocale(resolvedLocale: string): (code: string)
    ensures code == "US" || code == "GB" || code == "FR" || code == "DE"
    ensures var l := Lower(resolvedLocale);
      && (code == "US" <==> Contains(l, "us") || (!Contains(l, "gb") && !Contains(l, "fr") && !Contains(l, "de")))
      && (code == "GB" <==> !Contains(l, "us") && Contains(l, "gb"))
      && (code == "FR" <==> !Contains(l, "us") && !Contains(l, "gb") && Contains(l, "fr"))
      && (code == "DE" <==> !Contains(l, "us") && !Contains(l, "gb") && !Contains(l, "fr") && Contains(l, "de"))
  {
    var detectedLang := Lower(resolvedLocale);
    if Includes(detectedLang, "us") then "US"
    else if Includes(detectedLang, "gb") then "GB"
    else if Includes(detectedLang, "fr") then "FR"
    else if Includes(detectedLang, "de") then "DE"
    else "US"
  }

  /** Detection does not depend on the case of the locale string. */
  lemma DetectLocaleIgnoresCase(resolvedLocale: string)
    ensures DetectLocale(Lower(resolvedLocale)) == DetectLocale(resolvedLocale)
  {
    LowerIdempotent(resolvedLocale);
  }
}
