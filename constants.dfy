/**
 * The application constants: the router base name, which depends on the build
 * mode, and the set of languages written right to left.
 */
module Constants {
  import opened Placeholders

  /** `APP_BASENAME`: the GitHub Pages sub-path in a production build, the site
      root otherwise. The build mode (`process.env.NODE_ENV`) is a parameter. */
  function AppBasename(nodeEnv: string): (r: string)
    ensures nodeEnv == "production" ==> r == "/vibing-towards-accessibility"
    ensures nodeEnv != "production" ==> r == ""
  {
    if nodeEnv == "production" then "/vibing-towards-accessibility" else ""
  }

  /** The base name is either the root or an absolute path without a trailing
      slash, as a router base name must be. */
  lemma BasenameIsRouterBase(nodeEnv: string)
    ensures var b := AppBasename(nodeEnv);
      b == "" || (b[0] == '/' && b[|b| - 1] != '/')
  {
  }

  /** `RTL_LANGUAGES`: Arabic, Hebrew, Persian and Urdu. */
  const RtlLanguages: set<string> := {"ar", "he", "fa", "ur"}

  /** `isRTLLanguage`: exact, case-sensitive membership. */
  predicate IsRtlLanguage(languageCode: string) {
    languageCode in RtlLanguages
  }

  /** Exactly the four codes are right to left; an upper-case code or a code with
      a region is not. */
  lemma RtlExactly(languageCode: string)
    ensures IsRtlLanguage(languageCode) <==>
      languageCode == "ar" || languageCode == "he" || languageCode == "fa" || languageCode == "ur"
    ensures !IsRtlLanguage("AR") && !IsRtlLanguage("ar-SA") && !IsRtlLanguage("en")
  {
  }

  /** Every right-to-left code is one the onboarding scripts accept, so each can
      have a locale file; a regional variant is accepted for onboarding but is
      not treated as right to left. */
  lemma RtlCodesAreLanguageCodes(languageCode: string)
    ensures IsRtlLanguage(languageCode) ==> ValidLanguageCode(languageCode)
    ensures ValidLanguageCode("ar-SA") && !IsRtlLanguage("ar-SA")
  {
  }
}
