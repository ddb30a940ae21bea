/**
 * AI validation of a locale: every English string whose translation is a
 * string and not a placeholder is sent to the validator; a result passes when
 * it is valid with a score of at least 70; failures and validator errors are
 * recorded as issues. The report sums the per-language results.
 */
module AiValidate {
  import opened Wrappers
  import opened Strings
  import opened Json
  import opened Services
  import opened Markers
  import opened Placeholders
  import opened ListLanguages
  import opened LocaleDirectory

  /** One English/translation pair sent to the validator, with its key path. */
  datatype Check = Check(path: string, original: string, translation: string)

  /** An entry of `results.issues`. */
  datatype Issue = Issue(key: string, score: real, issues: seq<string>, suggestions: seq<string>,
                         original: string, translation: string)

  /** The `results` record of `validateTranslations`. */
  datatype Results = Results(totalValidated: nat, passedValidation: nat, failedValidation: nat,
                             issues: seq<Issue>, suggestions: seq<string>)

  const NoResults := Results(0, 0, 0, [], [])

  /** Folding nested results into the running ones. */
  function Combine(a: Results, b: Results): Results {
    Results(a.totalValidated + b.totalValidated, a.passedValidation + b.passedValidation,
            a.failedValidation + b.failedValidation, a.issues + b.issues, a.suggestions + b.suggestions)
  }

  /** The pass rule. */
  predicate Passes(v: Validation) {
    v.isValid && v.score >= 70.0
  }

  /** A translation the script skips. */
  predicate IsSkipped(translation: string) {
    Contains(translation, TranslateMarker) || Contains(translation, FailedMarker)
  }

  // ---------------------------------------------------------------------------
  // Which pairs are checked

  /** The pairs the validator sees, in the order the script visits them:
      English keys in order, recursing where both sides are objects or arrays. */
  function Checks(english: Json, translated: Json, prefix: string): seq<Check>
    requires IsObject(english)
    decreases english, 2
  {
    ChecksUpTo(english, translated, prefix, Size(english))
  }

  function ChecksUpTo(english: Json, translated: Json, prefix: string, n: nat): seq<Check>
    requires IsObject(english) && n <= Size(english)
    decreases english, 1, n
  {
    if n == 0 then [] else ChecksUpTo(english, translated, prefix, n - 1) + EntryChecks(english, translated, prefix, n - 1)
  }

  /** English entry `i` against `translatedObj[key]`. */
  function EntryChecks(english: Json, translated: Json, prefix: string, i: nat): seq<Check>
    requires IsObject(english) && i < Size(english)
    decreases english, 0
  {
    var key := KeyAt(english, i);
    var value := ValueAt(english, i);
    var other := Get(translated, key);
    var path := KeyPath(prefix, key);
    if value.Str? && other.Some? && other.value.Str? then
      (if IsSkipped(other.value.s) then [] else [Check(path, value.s, other.value.s)])
    else if IsObject(value) && other.Some? && IsObject(other.value) then Checks(value, other.value, path)
    else []
  }

  // ---------------------------------------------------------------------------
  // What the checks add up to

  /** What one call of the validator contributes. */
  function CheckResult(c: Check, language: string, validate: Validator): Results {
    match validate(c.original, c.translation, language, c.path)
    case Validated(v) =>
      if Passes(v) then Results(1, 1, 0, [], [])
      else Results(1, 0, 1, [Issue(c.path, v.score, v.issues, v.suggestions, c.original, c.translation)], [])
    case Threw(message) =>
      Results(0, 0, 0, [Issue(c.path, 0.0, ["Validation failed: " + message], [], c.original, c.translation)], [])
  }

  /** The results of validating the pairs one after the other. */
  function Summarize(checks: seq<Check>, language: string, validate: Validator): Results {
    if |checks| == 0 then NoResults
    else Combine(Summarize(checks[..|checks| - 1], language, validate), CheckResult(checks[|checks| - 1], language, validate))
  }

  lemma CombineAssociative(a: Results, b: Results, c: Results)
    ensures Combine(Combine(a, b), c) == Combine(a, Combine(b, c))
  {
    assert (a.issues + b.issues) + c.issues == a.issues + (b.issues + c.issues);
    assert (a.suggestions + b.suggestions) + c.suggestions == a.suggestions + (b.suggestions + c.suggestions);
  }

  lemma CombineNone(a: Results)
    ensures Combine(a, NoResults) == a && Combine(NoResults, a) == a
  {
    assert a.issues + [] == a.issues && a.suggestions + [] == a.suggestions;
  }

  /** Results of consecutive runs of checks add up. */
  lemma {:induction false} SummarizeAppend(a: seq<Check>, b: seq<Check>, language: string, validate: Validator)
    ensures Summarize(a + b, language, validate) == Combine(Summarize(a, language, validate), Summarize(b, language, validate))
  {
    if |b| == 0 {
      assert a + b == a;
      CombineNone(Summarize(a, language, validate));
    } else {
      var front := b[..|b| - 1];
      SummarizeAppend(a, front, language, validate);
      assert (a + b)[..|a + b| - 1] == a + front;
      assert (a + b)[|a + b| - 1] == b[|b| - 1];
      CombineAssociative(Summarize(a, language, validate), Summarize(front, language, validate),
                         CheckResult(b[|b| - 1], language, validate));
    }
  }

  /** Every validated pair has passed or failed; every failure is an issue, and so
      is every validator error; no suggestion ever reaches `results.suggestions`. */
  predicate Consistent(r: Results) {
    r.totalValidated == r.passedValidation + r.failedValidation
    && r.failedValidation <= |r.issues|
    && r.suggestions == []
  }

  lemma {:induction false} SummarizeConsistent(checks: seq<Check>, language: string, validate: Validator)
    ensures Consistent(Summarize(checks, language, validate))
    ensures |Summarize(checks, language, validate).issues| <= |checks|
    ensures Summarize(checks, language, validate).totalValidated <= |checks|
  {
    if |checks| > 0 {
      SummarizeConsistent(checks[..|checks| - 1], language, validate);
    }
  }

  /** When the validator always answers, every pair is counted once and the
      issues are exactly the failures. */
  lemma {:induction false} SummarizeAnswered(checks: seq<Check>, language: string, validate: Validator)
    requires forall c :: c in checks ==> validate(c.original, c.translation, language, c.path).Validated?
    ensures Summarize(checks, language, validate).totalValidated == |checks|
    ensures |Summarize(checks, language, validate).issues| == Summarize(checks, language, validate).failedValidation
  {
    if |checks| > 0 {
      SummarizeAnswered(checks[..|checks| - 1], language, validate);
    }
  }

  // ---------------------------------------------------------------------------
  // validateTranslations

  /** `validateTranslations(englishObj, translatedObj, targetLanguage, aiService, keyPrefix)`. */
  method ValidateTranslations(english: Json, translated: Json, language: string, validate: Validator, prefix: string)
    returns (results: Results)
    requires IsObject(english) && IsObject(translated)
    ensures results == Summarize(Checks(english, translated, prefix), language, validate)
    decreases english, 2
  {
    results := NoResults;
    var source := EntriesOf(english);
    var i := 0;
    while i < |source|
      invariant i <= |source|
      invariant results == Summarize(ChecksUpTo(english, translated, prefix, i), language, validate)
    {
      results := ValidateEntry(english, translated, i, language, validate, prefix, results);
      i := i + 1;
    }
  }

  /** The loop body for English entry `i`. */
  method ValidateEntry(english: Json, translated: Json, i: nat, language: string, validate: Validator,
                       prefix: string, before: Results)
    returns (results: Results)
    requires IsObject(english) && IsObject(translated) && i < Size(english)
    requires before == Summarize(ChecksUpTo(english, translated, prefix, i), language, validate)
    ensures results == Summarize(ChecksUpTo(english, translated, prefix, i + 1), language, validate)
    decreases english, 1
  {
    var key := KeyAt(english, i);
    var path := KeyPath(prefix, key);
    var englishValue := ValueAt(english, i);
    var translatedValue := Get(translated, key);
    ghost var entry := EntryChecks(english, translated, prefix, i);
    assert ChecksUpTo(english, translated, prefix, i + 1) == ChecksUpTo(english, translated, prefix, i) + entry;
    SummarizeAppend(ChecksUpTo(english, translated, prefix, i), entry, language, validate);
    results := before;
    if englishValue.Str? && translatedValue.Some? && translatedValue.value.Str? {
      var translation := translatedValue.value.s;
      if Contains(translation, TranslateMarker) || Contains(translation, FailedMarker) {
        CombineNone(before);
        return;
      }
      var c := Check(path, englishValue.s, translation);
      assert entry == [c];
      SummarizeOne(c, language, validate);
      results := Record(results, c, language, validate);
    } else if IsObject(englishValue) && translatedValue.Some? && IsObject(translatedValue.value) {
      assert entry == Checks(englishValue, translatedValue.value, path);
      results := ValidateNested(results, englishValue, translatedValue.value, language, validate, path);
    } else {
      assert entry == [];
      CombineNone(before);
    }
  }

  /** Validating a nested object or array and folding its results in. */
  method ValidateNested(before: Results, english: Json, translated: Json, language: string, validate: Validator,
                        path: string)
    returns (results: Results)
    requires IsObject(english) && IsObject(translated)
    ensures results == Combine(before, Summarize(Checks(english, translated, path), language, validate))
    decreases english, 3
  {
    var nested := ValidateTranslations(english, translated, language, validate, path);
    results := Results(before.totalValidated + nested.totalValidated,
                       before.passedValidation + nested.passedValidation,
                       before.failedValidation + nested.failedValidation,
                       before.issues + nested.issues,
                       before.suggestions + nested.suggestions);
  }

  lemma SummarizeOne(c: Check, language: string, validate: Validator)
    ensures Summarize([c], language, validate) == CheckResult(c, language, validate)
  {
    assert [c][..0] == [];
    CombineNone(CheckResult(c, language, validate));
  }

  /** Validating one pair: count it, and record a failure or an error as an issue. */
  method Record(before: Results, c: Check, language: string, validate: Validator) returns (results: Results)
    ensures results == Combine(before, CheckResult(c, language, validate))
  {
    results := before;
    var outcome := validate(c.original, c.translation, language, c.path);
    match outcome
    case Validated(validation) =>
      results := results.(totalValidated := results.totalValidated + 1);
      if validation.isValid && validation.score >= 70.0 {
        results := results.(passedValidation := results.passedValidation + 1);
        assert results.issues == before.issues + [];
        assert results.suggestions == before.suggestions + [];
      } else {
        results := results.(failedValidation := results.failedValidation + 1,
                            issues := results.issues + [Issue(c.path, validation.score, validation.issues,
                                                              validation.suggestions, c.original, c.translation)]);
        assert results.suggestions == before.suggestions + [];
      }
    case Threw(message) =>
      results := results.(issues := results.issues + [Issue(c.path, 0.0, ["Validation failed: " + message], [],
                                                            c.original, c.translation)]);
      assert results.suggestions == before.suggestions + [];
  }

  // ---------------------------------------------------------------------------
  // Properties of the checked pairs

  /** Placeholders and failed translations are never sent to the validator. */
  lemma {:induction false} ChecksSkipPlaceholders(english: Json, translated: Json, prefix: string)
    requires IsObject(english)
    ensures forall c :: c in Checks(english, translated, prefix) ==> !IsSkipped(c.translation)
    decreases english, 1
  {
    ChecksSkipPlaceholdersUpTo(english, translated, prefix, Size(english));
  }

  lemma {:induction false} ChecksSkipPlaceholdersUpTo(english: Json, translated: Json, prefix: string, n: nat)
    requires IsObject(english) && n <= Size(english)
    ensures forall c :: c in ChecksUpTo(english, translated, prefix, n) ==> !IsSkipped(c.translation)
    decreases english, 0, n
  {
    if n > 0 {
      ChecksSkipPlaceholdersUpTo(english, translated, prefix, n - 1);
      var value := ValueAt(english, n - 1);
      var other := Get(translated, KeyAt(english, n - 1));
      if IsObject(value) && other.Some? && IsObject(other.value) {
        ChecksSkipPlaceholders(value, other.value, KeyPath(prefix, KeyAt(english, n - 1)));
      }
    }
  }

  lemma {:induction false} ChecksOnlyEnglishKeysUpTo(english: Json, a: Json, b: Json, prefix: string, n: nat)
    requires IsObject(english) && n <= Size(english)
    requires forall i :: 0 <= i < Size(english) ==> Get(a, KeyAt(english, i)) == Get(b, KeyAt(english, i))
    ensures ChecksUpTo(english, a, prefix, n) == ChecksUpTo(english, b, prefix, n)
  {
    if n > 0 {
      ChecksOnlyEnglishKeysUpTo(english, a, b, prefix, n - 1);
    }
  }

  /** Only what the translation holds under English keys matters: keys it lacks
      are skipped and keys English lacks are never looked at. */
  lemma ChecksOnlyEnglishKeys(english: Json, a: Json, b: Json, prefix: string)
    requires IsObject(english)
    requires forall i :: 0 <= i < Size(english) ==> Get(a, KeyAt(english, i)) == Get(b, KeyAt(english, i))
    ensures Checks(english, a, prefix) == Checks(english, b, prefix)
  {
    ChecksOnlyEnglishKeysUpTo(english, a, b, prefix, Size(english));
  }

  /** What `translatedObj[key]` yields from a tree whose strings are all
      placeholders is again such a tree. */
  lemma GetKeepsUntranslated(j: Json, k: string)
    requires AllStringsUntranslated(j) && Get(j, k).Some?
    ensures AllStringsUntranslated(Get(j, k).value)
  {
    if j.Obj? {
      var i := KeyIndex(j.entries, k);
      assert Get(j, k).value == j.entries[i].1;
    }
  }

  lemma {:induction false} NothingToValidateUpTo(english: Json, translated: Json, prefix: string, n: nat)
    requires IsObject(english) && n <= Size(english) && AllStringsUntranslated(translated)
    ensures ChecksUpTo(english, translated, prefix, n) == []
    decreases english, 0, n
  {
    if n > 0 {
      NothingToValidateUpTo(english, translated, prefix, n - 1);
      var key := KeyAt(english, n - 1);
      var value := ValueAt(english, n - 1);
      var other := Get(translated, key);
      if other.Some? {
        GetKeepsUntranslated(translated, key);
        if IsObject(value) && IsObject(other.value) {
          NothingToValidate(value, other.value, KeyPath(prefix, key));
        }
      }
    }
  }

  /** A locale whose strings are all still placeholders gives the validator
      nothing to do. */
  lemma {:induction false} NothingToValidate(english: Json, translated: Json, prefix: string)
    requires IsObject(english) && AllStringsUntranslated(translated)
    ensures Checks(english, translated, prefix) == []
    decreases english, 1
  {
    NothingToValidateUpTo(english, translated, prefix, Size(english));
  }

  /** In particular a locale just created by the onboarding script. */
  lemma ValidatingFreshLocale(english: Json, language: string, validate: Validator)
    requires IsObject(english)
    ensures Summarize(Checks(english, CreatePlaceholders(english, ""), ""), language, validate) == NoResults
  {
    PlaceholdersAllUntranslated(english, "");
    NothingToValidate(english, CreatePlaceholders(english, ""), "");
  }

  // ---------------------------------------------------------------------------
  // The report

  /** `report.summary`. */
  datatype Summary = Summary(totalValidated: nat, totalPassed: nat, totalFailed: nat, totalIssues: nat)

  /** The four `reduce` sums over the per-language results. */
  function ReportSummary(all: seq<Results>): (s: Summary) {
    if |all| == 0 then Summary(0, 0, 0, 0)
    else
      var s := ReportSummary(all[..|all| - 1]);
      var r := all[|all| - 1];
      Summary(s.totalValidated + r.totalValidated, s.totalPassed + r.passedValidation,
              s.totalFailed + r.failedValidation, s.totalIssues + |r.issues|)
  }

  /** The report's sums are those of one combined result. */
  lemma {:induction false} ReportSums(all: seq<Results>)
    ensures var total := CombineAll(all);
            ReportSummary(all) == Summary(total.totalValidated, total.passedValidation, total.failedValidation, |total.issues|)
  {
    if |all| > 0 {
      ReportSums(all[..|all| - 1]);
    }
  }

  /** So the report's totals are as consistent as the per-language results. */
  lemma {:induction false} ReportConsistent(all: seq<Results>)
    requires forall i :: 0 <= i < |all| ==> Consistent(all[i])
    ensures Consistent(CombineAll(all))
  {
    if |all| > 0 {
      var front := all[..|all| - 1];
      assert forall i :: 0 <= i < |front| ==> front[i] == all[i];
      ReportConsistent(front);
      CombineConsistent(CombineAll(front), all[|all| - 1]);
    }
  }

  lemma CombineConsistent(a: Results, b: Results)
    requires Consistent(a) && Consistent(b)
    ensures Consistent(Combine(a, b))
  {
    assert |a.issues + b.issues| == |a.issues| + |b.issues|;
  }

  function CombineAll(all: seq<Results>): Results {
    if |all| == 0 then NoResults else Combine(CombineAll(all[..|all| - 1]), all[|all| - 1])
  }

  // ---------------------------------------------------------------------------
  // validateLanguageWithAI

  /** How a run of the validation script starts, in the order it checks. */
  datatype Start =
    | NoEnglishLocale
    | LanguageNotFound(code: string, available: seq<string>)
    | NoLocales
    | ServiceUnreachable
    | Validate(languages: seq<string>)

  function ValidationStart(englishExists: bool, directory: seq<string>, language: Option<string>,
                           hasConnection: bool): (r: Start)
    ensures r.Validate? <==> englishExists && AiTargets(directory, language).Languages?
                             && |AiTargets(directory, language).codes| > 0 && hasConnection
    ensures r.Validate? ==> r.languages == AiTargets(directory, language).codes
    ensures r.ServiceUnreachable? ==> !hasConnection
  {
    if !englishExists then NoEnglishLocale
    else match AiTargets(directory, language)
      case UnknownLanguage(code, available) => LanguageNotFound(code, available)
      case Languages(codes) =>
        if |codes| == 0 then NoLocales
        else if !hasConnection then ServiceUnreachable
        else Validate(codes)
  }
}
