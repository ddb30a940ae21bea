/** The marker strings the locale scripts write into untranslated values and
    look for again. */
module Markers {
  /** Written into every placeholder; what the listing counts as untranslated. */
  const TranslateMarker := "TRANSLATE:"

  /** What the AI translation script also looks for. */
  const FailedMarker := "TRANSLATION_FAILED"

  /** Prefixed by the AI onboarding to a string whose translation threw. */
  const FailedTag := "[TRANSLATION_FAILED]"
}
