/**
 * The AI services the locale scripts call, as oracles. A call that throws is
 * `None` (or `Threw`); what the service does with the network is not modelled.
 */
module Services {
  import opened Wrappers

  /** `aiService.translateText(text, targetLanguage, keyPath)`. */
  type Translator = (string, string, string) -> Option<string>

  /** What `aiService.validateTranslation` resolves to. */
  datatype Validation = Validation(isValid: bool, score: real, issues: seq<string>,
                                   suggestions: seq<string>, summary: string)

  datatype ValidationOutcome = Validated(v: Validation) | Threw(message: string)

  /** `aiService.validateTranslation(original, translation, targetLanguage, keyPath)`. */
  type Validator = (string, string, string, string) -> ValidationOutcome
}
