# A verified model of the apps and the locale tooling of "Vibing towards accessibility"

This project models in Dafny the behaviour of three small browser apps and of the
internationalization tooling of the site, and proves what each of them promises.

- **Solitaire** (`Cards`, `Solitaire`). The ordered 52-card deck and its Fisher-Yates
  shuffle. The rank values and the foundation and tableau placement rules. The triangular
  deal. Drawing from the stock and recycling the waste. Moving a card, selecting with a
  click, and detecting a win. The game is a class whose fields are the React state
  variables, and each handler is one method. The class runs the move with the first
  finding below corrected: a move takes the selected card only while it is still the top
  of its pile. The move as written is modelled beside it. Every handler of the class
  preserves card conservation: each of the 52 cards is held exactly once.
- **Snake** (`ArcadeGame`). One tick of the snake on the 20×20 grid: wall and self
  collision, growing on food, the score, the high score and the speed-up. Also the food
  draw, the direction rule, the keyboard and button handlers, and reset, start and pause.
  The game class steers by the turn rule with the second finding below corrected: a turn
  is refused when it reverses the direction last moved. The rule as written is modelled
  beside it. The class's proved invariant: the snake stays on the grid without overlaps,
  the food is off it, and the head never turns back onto the neck.
- **Calculator** (`Calculator`). The entry state machine: the display string, the pending
  value and operator, the waiting-for-operand flag and the history tape. The numbers
  follow the IEEE-754 rules for NaN and the infinities. The handlers are pure transition
  functions on one state value, and a class whose methods apply them to its fields.
- **Locale scripts**:
  - `UpdateLanguages`: merging missing English keys into each locale.
  - `Placeholders`: onboarding a language with placeholders.
  - `AiOnboard`: onboarding with an AI translator.
  - `AiTranslate`: translating the remaining placeholders.
  - `AiValidate`: validating translations with an AI service and summing the report.
  - `ListLanguages`: listing languages with their translation status.
  - Shared pieces:
    - `Json`: the JSON trees and the JavaScript object operations the scripts use.
    - `Strings`: string methods.
    - `LeafWalk`: the tree walk both AI scripts make.
    - `LocaleDirectory`: which files are locales.
    - `Markers`: the marker strings.
    - `Services`: the AI services, as oracles.
    - `Workflow`: the hand-over of placeholders between the scripts, proved as round trips.
- **Coverage test** (`I18nCoverage`). Which source files the internationalization test
  scans and which texts it reports as hard-coded. Which calls count as uses of a key, how
  a dotted key is looked up, and the report of missing keys.
- **Constants** (`Constants`). The router base name and the right-to-left language set.

Where the source changes things step by step, the model is imperative:
- loops with their invariants (the deck, the shuffle, the deal, the food draw, the merge,
  the copy loops of the AI scripts, the validation counters, the leaf counts, the key
  lookup, the directory walk);
- classes for the three apps' state.

Each such method is proved against a function that specifies it. What that function
satisfies is proved as lemmas: inverse operations, preserved invariants, idempotence of
the merge, and counts.

The tableau-to-tableau removal at `src/apps/Solitaire.tsx:173` slices the source column
of the same `newTableau` array that line 166 has already handed to `setTableau`. React
renders that array, so the removal takes effect. `Solitaire.MoveEffect` states it.

## Model

| member | source | states |
|---|---|---|
| UpdateLanguages.MergeTranslations | scripts/i18n-update-languages.js:20-51 | returns exactly the entries and the count of the merge specification `Merged`, built from a copy of the target by walking the English entries in order |
| UpdateLanguages.MergeKey | scripts/i18n-update-languages.js:24-47 | one loop iteration equals `MergeEntry`: a missing string key gets its placeholder and counts 1, a missing object is merged into `{}`, another missing value is copied and counts 1, two objects are merged, anything else is kept |
| UpdateLanguages.MergeEntryLookup | scripts/i18n-update-languages.js:24-47 | one iteration changes the value under its own key only, and that key then holds the merged child |
| UpdateLanguages.MergeKeepsTargetOnlyKeys | scripts/i18n-update-languages.js:21 | a key only the target has reads back the target's value after the merge |
| UpdateLanguages.MergeAt | scripts/i18n-update-languages.js:24-47 | every English key is present after the merge, holding the child computed from its English value and the target's own value |
| UpdateLanguages.MergeChildCases | scripts/i18n-update-languages.js:27-47 | a missing string becomes `[<path>] - TRANSLATE: <english>`, a missing scalar is copied and counted, a present key keeps its value unless both sides are objects (a target string under an English object included), objects merge to an object |
| UpdateLanguages.MergeCovers | scripts/i18n-update-languages.js:24-46 | every English key is in the result, recursively wherever English and the result both hold an object |
| UpdateLanguages.LeavesOfEntries | scripts/i18n-update-languages.js:21 | the spread copy of the target has the target's leaves |
| UpdateLanguages.LeavesPut | scripts/i18n-update-languages.js:30-44 | an assignment `result[key] = v` trades the leaves of the previous value for those of `v` |
| UpdateLanguages.MergeChildLeaves | scripts/i18n-update-languages.js:29-46 | the value assigned to a key has its previous leaves plus exactly the count added for it |
| UpdateLanguages.MergeCountsLeaves | scripts/i18n-update-languages.js:20-51 | `addedCount` is exactly the number of leaves the merge inserts |
| UpdateLanguages.MergeChildIdempotent | scripts/i18n-update-languages.js:33-45 | merging English again into a merged child object adds nothing and changes nothing |
| UpdateLanguages.MergeIdempotent | scripts/i18n-update-languages.js:20-51 | a second merge of the result adds 0 and returns an equal tree |
| UpdateLanguages.UpdatedLocale | scripts/i18n-update-languages.js:104-111 | a locale is rewritten exactly when the merge added something |
| UpdateLanguages.UpdateOnce | scripts/i18n-update-languages.js:104-111 | a locale just updated is not rewritten by the next run |
| UpdateLanguages.SelectLocales | scripts/i18n-update-languages.js:68-88 | the run updates the `*.json` files other than `en.json` (narrowed to `<lang>.json` when a language is given) when there are any; with none and a language requested it reports the language as not found, listing the code of every available locale file, each the file name without `.json`, in directory order |
| UpdateLanguages.Writes | scripts/i18n-update-languages.js:94-115 | a run writes at most one file per selected locale |
| UpdateLanguages.UpdateLocales | scripts/i18n-update-languages.js:92-115 | the loop writes exactly the files of `Writes`, and `totalUpdated` counts them |
| UpdateLanguages.AfterRun | scripts/i18n-update-languages.js:104-108 | after a run a locale the merge added something to holds the merged tree, and every other locale keeps its content; every locale keeps its code and still holds an object |
| UpdateLanguages.SecondRunWritesNothing | scripts/i18n-update-languages.js:94-115 | running the script again over the files the first run left, written and unwritten ones alike, writes no file |
| Json.EntriesOf | scripts/i18n-update-languages.js:24 | `Object.entries` yields one entry per key of an object or index of an array, entry `i` being the `i`-th key and its value |
| Json.LookupKeys | scripts/i18n-update-languages.js:27 | a key reads back a value iff some entry has it |
| Json.Put | scripts/i18n-update-languages.js:30 | an assignment keeps the number of entries or appends the new entry last |
| Json.PutLookup | scripts/i18n-update-languages.js:30 | after `obj[key] = v` the key reads back `v` and every other key what it read before |
| Json.PutKeys | scripts/i18n-update-languages.js:30 | assigning a present key keeps the key list; assigning a new one appends it |
| Json.PutReplaces | scripts/i18n-update-languages.js:44 | assigning a present key replaces the entry it reads, in place |
| Json.PutSame | scripts/i18n-update-languages.js:44 | assigning a key the value it already reads back changes nothing |
| Json.Get | scripts/i18n-ai-validate.js:25 | a bracket read of an own property finds nothing in a string, number, boolean or null, and reads the entry of an object |
| Json.GetIndex | scripts/i18n-ai-validate.js:25 | element `i` of an array is read under the key `"i"` |
| Strings.NatToString | scripts/i18n-update-languages.js:24 | the key `Object.entries` gives an array index is a non-empty string of decimal digits without a leading zero |
| Strings.NatToStringRoundTrip | scripts/i18n-update-languages.js:24 | reading the digits of an index key back gives the index |
| Strings.NatToStringInjective | scripts/i18n-update-languages.js:24 | distinct indices give distinct keys |
| Placeholders.PlaceholderIsUntranslated | scripts/i18n-onboard-language.js:19 | every placeholder contains `TRANSLATE:` |
| Placeholders.CreatePlaceholders | scripts/i18n-onboard-language.js:17-36 | a string becomes a placeholder containing `TRANSLATE:` and ending in the English text; arrays keep their length, objects their keys in order; numbers, booleans and null are kept |
| Placeholders.PlaceholdersKeepShape | scripts/i18n-onboard-language.js:17-36 | the placeholder tree has the input's shape exactly: same keys in the same order, arrays of the same length, numbers, booleans and null unchanged |
| Placeholders.PlaceholdersAllUntranslated | scripts/i18n-onboard-language.js:18-35 | every string leaf of the result contains `TRANSLATE:` |
| Placeholders.SameShapeSameLeaves | scripts/i18n-onboard-language.js:17-36 | trees of the same shape have the same number of string leaves |
| Placeholders.AllUntranslatedCounts | scripts/i18n-list-languages.js:73-98 | when every string is a placeholder, the untranslated count equals the string count |
| Placeholders.OnboardedLocaleIsUntranslated | scripts/i18n-onboard-language.js:75 | a freshly onboarded locale has as many strings as English, all untranslated |
| Placeholders.ValidLanguageCodeIsPattern | scripts/i18n-onboard-language.js:50 | a code is accepted iff it is two lower-case ASCII letters optionally followed by `-` and two upper-case ones |
| Placeholders.ValidLanguageCode | scripts/i18n-onboard-language.js:50 | an accepted code has 2 or 5 characters and no `.`, `/` or `\`, so `<code>.json` names a file directly in the locale directory |
| Placeholders.OnboardLanguage | scripts/i18n-onboard-language.js:41-91 | a file is created iff a non-empty, well-formed code is given, `<code>.json` does not exist and `en.json` does; it is `<code>.json` holding a tree shaped like English whose strings are all placeholders |
| AiOnboard.TranslateObject | scripts/i18n-ai-onboard.js:22-48 | the object built key by key into a fresh `{}` equals the walk `Walked` with the onboarding rewrite: each string replaced by its translation or `[TRANSLATION_FAILED] <original>`, nested objects and arrays translated with the dotted path, other values copied |
| AiOnboard.TranslateEntry | scripts/i18n-ai-onboard.js:25-44 | one loop iteration produces the key and value of the walk's entry `i` |
| AiOnboard.OnboardRewritesEveryString | scripts/i18n-ai-onboard.js:28-39 | the new locale has as many strings as English and every one of them was rewritten |
| AiOnboard.FirstNonFlag | scripts/i18n-ai-onboard.js:181 | the position of the first argument not starting with `--`, or none when every argument does |
| AiOnboard.ParseArgs | scripts/i18n-ai-onboard.js:180-182 | the language code is the first argument not starting with `--`, absent iff all do; `skipAI` holds iff `--skip-ai` is among the arguments |
| AiOnboard.OnboardWithAi | scripts/i18n-ai-onboard.js:53-177 | with `--skip-ai` the outcome is that of placeholder onboarding; otherwise a file is created iff the code is present and well formed, the locale is new, English exists, credentials are found and English is an object, and it holds the translated tree |
| LeafWalk.Walked | scripts/i18n-ai-translate.js:22-62 | the walk keeps every key of its input, in order, each entry carrying the walked value (shared by both AI scripts, which differ only in the string rewrite) |
| LeafWalk.WalkedEntry | scripts/i18n-ai-onboard.js:25-44 | entry `i` of the walk keeps the input's key `i` |
| LeafWalk.WalkKeepsStringLeaves | scripts/i18n-ai-translate.js:29-58 | strings go to strings and objects to objects, so the result has as many string leaves as the input |
| LeafWalk.RewrittenAtMostLeaves | scripts/i18n-ai-translate.js:43-57 | at most every string leaf is counted, and all of them when the rewrite never keeps a string |
| LeafWalk.NothingRewritten | scripts/i18n-ai-translate.js:49-52 | a rewrite that keeps every string counts nothing |
| LeafWalk.WalkWellFormed | scripts/i18n-ai-translate.js:23 | the walked tree again has distinct keys, as a parsed JSON object does |
| LeafWalk.FreshStep | scripts/i18n-ai-onboard.js:23-32 | filling a fresh `{}` key by key yields the walk's entries in order |
| AiTranslate.OriginalText | scripts/i18n-ai-translate.js:36-41 | the text handed to the translator is trimmed and no longer than the value; a value with neither marker would be only trimmed |
| AiTranslate.RewriteOf | scripts/i18n-ai-translate.js:29-52 | a string is replaced only when it contains `TRANSLATE:` or `TRANSLATION_FAILED` and the translator answers for its extracted text; every other string is kept |
| AiTranslate.TranslatePlaceholders | scripts/i18n-ai-translate.js:22-62 | the copied and updated object equals the walk with the placeholder rewrite, and `translatedCount` is the number of leaves it replaced |
| AiTranslate.TranslateEntry | scripts/i18n-ai-translate.js:26-58 | one loop iteration yields the walk's entry and the running count; a value not written is the original one |
| AiTranslate.UpdatedLocale | scripts/i18n-ai-translate.js:147-160 | a locale file is rewritten exactly when something was translated, with the walked tree |
| Workflow.PlaceholderMarkerFirst | scripts/i18n-onboard-language.js:19 | in `[path] - TRANSLATE: s` the first `TRANSLATE:` is the one after the path, when the path holds none |
| Workflow.PlaceholderAfterMarker | scripts/i18n-ai-translate.js:38 | `split('TRANSLATE:')[1]` of a placeholder is the English string after one space |
| Workflow.PlaceholderRoundTrip | scripts/i18n-ai-translate.js:36-41 | the text extracted from an onboarding or update placeholder is the trimmed English string |
| Workflow.FailedTextStripped | scripts/i18n-ai-translate.js:40 | removing the first `[TRANSLATION_FAILED]` from a failure text leaves a space and the original string |
| Workflow.FailedRoundTrip | scripts/i18n-ai-translate.js:36-41 | the text extracted from `[TRANSLATION_FAILED] s` is the trimmed `s`, so a failed onboarding translation is retried on the English text |
| Strings.IndexOf | scripts/i18n-ai-translate.js:37 | the position found is where the substring first occurs; none iff it occurs nowhere |
| Strings.ReplaceFirst | scripts/i18n-ai-translate.js:40 | a string without the pattern is unchanged; otherwise the first occurrence is replaced and everything around it kept |
| LocaleDirectory.LocaleFiles | scripts/i18n-update-languages.js:68-70 | a file is kept iff it ends in `.json`, is not `en.json` and, when a language is given, is `<lang>.json` |
| LocaleDirectory.LanguageOfFile | scripts/i18n-update-languages.js:95 | the code read back from `<code>.json` is `code` |
| LocaleDirectory.LanguageOf | scripts/i18n-update-languages.js:95 | a name without `.json` is its own code; otherwise the code is the name with its first `.json` removed, five characters shorter |
| LocaleDirectory.AiTargets | scripts/i18n-ai-translate.js:76-99 | a requested language must have its file, otherwise it is reported by its code with the code of every locale file; without a request, the targets are the code of each locale file other than English, in directory order, each code the file name without `.json` |
| LocaleDirectory.EveryLocaleTargeted | scripts/i18n-ai-translate.js:94-98 | without a requested language, the code of every `.json` file other than `en.json` is a target, and every target is such a code |
| AiValidate.ValidateTranslations | scripts/i18n-ai-validate.js:14-94 | the counters and issues built in the loop equal the fold of `CheckResult` over the pairs `Checks` selects: English keys in order, both values strings and the translation no placeholder, recursing where both sides are objects |
| AiValidate.ValidateEntry | scripts/i18n-ai-validate.js:23-91 | one loop iteration extends the results by those of English entry `i` |
| AiValidate.ValidateNested | scripts/i18n-ai-validate.js:75-90 | the nested results are added to the counters and appended to the issues and suggestions |
| AiValidate.Record | scripts/i18n-ai-validate.js:33-74 | a validated pair counts once and passes iff `isValid` and `score >= 70`; a failure appends one issue; a validator error appends an issue with score 0 and changes no counter |
| AiValidate.SummarizeOne | scripts/i18n-ai-validate.js:33-74 | the results of one pair are its `CheckResult` |
| AiValidate.CombineAssociative | scripts/i18n-ai-validate.js:85-89 | folding nested results in is associative |
| AiValidate.CombineNone | scripts/i18n-ai-validate.js:15-21 | the empty results are neutral for folding |
| AiValidate.SummarizeAppend | scripts/i18n-ai-validate.js:23-91 | the results of consecutive runs of pairs add up |
| AiValidate.SummarizeConsistent | scripts/i18n-ai-validate.js:43-73 | `totalValidated == passedValidation + failedValidation`, every failure is an issue and no suggestion reaches `results.suggestions` |
| AiValidate.SummarizeAnswered | scripts/i18n-ai-validate.js:43-60 | when the validator always answers every pair is counted once and the issues are exactly the failures |
| AiValidate.ChecksSkipPlaceholders | scripts/i18n-ai-validate.js:27-31 | no translation holding `TRANSLATE:` or `TRANSLATION_FAILED` is sent to the validator |
| AiValidate.ChecksOnlyEnglishKeys | scripts/i18n-ai-validate.js:23-25 | only what the translation holds under English keys matters: missing keys are skipped and extra keys are never read |
| AiValidate.GetKeepsUntranslated | scripts/i18n-ai-validate.js:25 | the value under a key of an all-placeholder tree is again all placeholders |
| AiValidate.NothingToValidate | scripts/i18n-ai-validate.js:27-31 | a locale whose strings are all placeholders gives the validator nothing to check |
| AiValidate.ValidatingFreshLocale | scripts/i18n-ai-validate.js:27-31 | validating a locale just created by placeholder onboarding yields empty results |
| AiValidate.ReportSums | scripts/i18n-ai-validate.js:225-230 | the four report sums are those of the combined per-language results |
| AiValidate.ReportConsistent | scripts/i18n-ai-validate.js:225-230 | the combined results keep `totalValidated == passed + failed` and at least one issue per failure |
| AiValidate.CombineConsistent | scripts/i18n-ai-validate.js:85-89 | folding consistent results in keeps them consistent |
| AiValidate.ValidationStart | scripts/i18n-ai-validate.js:99-166 | validation starts iff English exists, the requested language (if any) has a file, there is at least one target and the service is reachable, and then covers exactly the targets |
| ListLanguages.CountKeys | scripts/i18n-list-languages.js:73-83 | the loop over the values returns the number of string leaves; numbers, booleans and null are not counted |
| ListLanguages.CountUntranslatedKeys | scripts/i18n-list-languages.js:88-98 | the loop returns the number of string leaves containing `TRANSLATE:`; `[TRANSLATION_FAILED] ...` strings are not counted |
| ListLanguages.UntranslatedAtMostKeys | scripts/i18n-list-languages.js:73-98 | the untranslated count never exceeds the key count, for every tree |
| ListLanguages.StatusOf | scripts/i18n-list-languages.js:46-48 | `en` is the source; any other language is complete iff its untranslated count is 0, and otherwise shows `translated/total` with `total` the key count and `translated + untranslated == total` |
| ListLanguages.SortStrings | scripts/i18n-list-languages.js:24 | `sort()` returns the same strings, as a multiset, in ascending order |
| ListLanguages.JsonFiles | scripts/i18n-list-languages.js:23 | a file is kept iff it ends in `.json` |
| ListLanguages.ListedLocaleFiles | scripts/i18n-list-languages.js:22-24 | the listing shows exactly the `.json` files of the directory, each as often as the directory lists it, in sorted order |
| Constants.AppBasename | src/constants.ts:1 | `/vibing-towards-accessibility` in a production build, `""` otherwise |
| Constants.BasenameIsRouterBase | src/constants.ts:1 | the base name is empty or an absolute path without a trailing slash |
| Constants.RtlExactly | src/constants.ts:4-9 | a code is right to left iff it is exactly `ar`, `he`, `fa` or `ur`; `AR` and `ar-SA` are not |
| Constants.RtlCodesAreLanguageCodes | src/constants.ts:4-9 | every right-to-left code is one the onboarding scripts accept, while the accepted `ar-SA` is not right to left |
| I18nCoverage.RecordTextValue | tests/i18n.spec.ts:123-136 | appends at most one finding and keeps the earlier ones; the one it appends is the trimmed text with one-based line and column |
| I18nCoverage.RecordIff | tests/i18n.spec.ts:123-136 | a finding is recorded iff the text holds an ASCII letter, and what is recorded is already trimmed |
| I18nCoverage.LetterSurvivesTrim | tests/i18n.spec.ts:124-126 | trimming never removes an ASCII letter, so testing the trimmed text is testing the text |
| Strings.Trim | tests/i18n.spec.ts:124 | the result is no longer than the input and neither starts nor ends with whitespace |
| Strings.TrimIsInfix | tests/i18n.spec.ts:124 | the result is a slice of the input, and only whitespace is dropped at either end |
| Strings.TrimIdempotent | tests/i18n.spec.ts:124 | trimming twice is trimming once |
| I18nCoverage.BlankNotRecorded | tests/i18n.spec.ts:124-125 | whitespace alone is never recorded |
| I18nCoverage.RecordedWhenLetter | tests/i18n.spec.ts:126-135 | a text holding a letter is recorded, trimmed, at its one-based position |
| I18nCoverage.RecordAllAppends | tests/i18n.spec.ts:138-143 | recording a sequence of pieces only appends findings, at most one per piece |
| I18nCoverage.HandleTemplateExpression | tests/i18n.spec.ts:138-143 | records the head text and then the literal text of each span, in order |
| I18nCoverage.SkippedAttributes | tests/i18n.spec.ts:13-55 | every `data-` attribute and every listed one (`className`, `aria-hidden`, ...) is skipped; `aria-label`, `title`, `alt` and `placeholder` are not |
| I18nCoverage.AriaLabelNotSkipped | tests/i18n.spec.ts:158 | `aria-label` is not a skipped attribute |
| I18nCoverage.AttributeFindings | tests/i18n.spec.ts:156-183 | a skipped attribute or one without initializer adds nothing; any attribute only appends findings |
| I18nCoverage.AttributeLiteral | tests/i18n.spec.ts:169-170 | a string value of an attribute that is not skipped is recorded like any text, with the attribute in the context |
| I18nCoverage.LiteralReported | tests/i18n.spec.ts:169-170 | a literal holding a letter in such an attribute produces exactly one finding |
| I18nCoverage.AriaLabelReported | tests/i18n.spec.ts:156-170 | a literal `aria-label` holding a letter is reported |
| I18nCoverage.PropertyFindings | tests/i18n.spec.ts:184-197 | only a property named in `USER_FACING_PROPERTY_NAMES` adds findings, and it only appends |
| I18nCoverage.UserFacingProperties | tests/i18n.spec.ts:57-66 | `label` and `"title"` are checked; `className` and a computed name are not |
| I18nCoverage.UsedKey | tests/i18n.spec.ts:218-222 | a call uses a key iff it calls `t` or `x.t` and its first argument is a string-like literal; the key and position are that literal's text and start |
| I18nCoverage.IsTranslationCall | tests/i18n.spec.ts:238-248 | only an identifier or a property access is a translation call: `t` directly, or `x.t` for any `x`, and no other name |
| I18nCoverage.UsedKeys | tests/i18n.spec.ts:238-248 | `t('a.b')` and `i18n.t('a.b')` use the key; `translate('a.b')` and `t(key)` do not |
| I18nCoverage.KeysOfUsage | tests/i18n.spec.ts:211 | the keys of the usage map, in first-use order |
| I18nCoverage.AddUsageLocations | tests/i18n.spec.ts:223-225 | recording a use appends the location to that key's list only, and the key is then listed |
| I18nCoverage.AddUsage | tests/i18n.spec.ts:223-225 | a key already used keeps its place in the key order, and a new key goes last |
| I18nCoverage.HasTranslationKey | tests/i18n.spec.ts:250-268 | the loop answers true iff every `.`-separated segment is an own property of an object reached so far |
| I18nCoverage.Resolve | tests/i18n.spec.ts:250-268 | the empty path reaches the value itself; a non-empty path from a non-object reaches nothing; a one-segment path reads that own property |
| I18nCoverage.ResolveConcat | tests/i18n.spec.ts:254-265 | following a path in two parts is following the first part, then the second from where it ends |
| Strings.Split | tests/i18n.spec.ts:251 | at least one piece: exactly `[s]` without the separator, two or more with it |
| Strings.SplitPieceLength | tests/i18n.spec.ts:251 | no piece is longer than the string split |
| Strings.SplitJoin | tests/i18n.spec.ts:251 | joining the pieces with the separator gives the string back |
| Strings.SplitPiecesFree | tests/i18n.spec.ts:251 | no piece contains the separator |
| I18nCoverage.SplitJoined | tests/i18n.spec.ts:251 | splitting dot-free segments joined with dots gives the segments back |
| I18nCoverage.DottedKeyResolves | tests/i18n.spec.ts:250-268 | a dotted key is found iff following its segments reaches a value |
| I18nCoverage.TopLevelKey | tests/i18n.spec.ts:250-268 | a key without a dot is found in an object iff it is one of its keys |
| I18nCoverage.NestedKey | tests/i18n.spec.ts:250-268 | a child `b` of the object under `a` makes `a.b` found |
| I18nCoverage.LinesFor | tests/i18n.spec.ts:291-293 | one report line per location of a key, in order |
| I18nCoverage.ReportLocations | tests/i18n.spec.ts:291-293 | the inner loop pushes exactly those lines |
| I18nCoverage.MissingKeys | tests/i18n.spec.ts:287-295 | the report loop yields the lines of every used key the English tree lacks, in first-use order |
| I18nCoverage.MissingExactly | tests/i18n.spec.ts:289-295 | every report line is a location of a missing key, and every location of a missing key has its line |
| I18nCoverage.NoMissingIff | tests/i18n.spec.ts:297-301 | the report is empty iff every key used somewhere is defined |
| I18nCoverage.SourcesAreSourceFiles | tests/i18n.spec.ts:100-104 | every listed path ends in `.ts` or `.tsx` and none in `.d.ts` |
| I18nCoverage.SkippedDirectoriesUnlisted | tests/i18n.spec.ts:96-98 | nothing under a `locales` or `assets` directory is listed |
| I18nCoverage.PushPending | tests/i18n.spec.ts:99 | pushing a directory adds its source files to what is still to be found |
| I18nCoverage.EntryStep | tests/i18n.spec.ts:93-106 | what one directory entry contributes: a kept directory its files, a skipped one nothing, a source file itself |
| I18nCoverage.ScanDirectory | tests/i18n.spec.ts:91-106 | one pass over a directory's entries moves its source files to the list or, for subdirectories, onto the stack, losing and duplicating none |
| I18nCoverage.GetSourceFiles | tests/i18n.spec.ts:84-110 | the stack-driven walk lists every source file under the source directory exactly once |
| Cards.MakeCard | src/apps/Solitaire.tsx:30-35 | the pushed card has the given suit and rank, is red iff the suit is ♥ or ♦, and its id is the suit symbol followed by the rank |
| Cards.RankValues | src/apps/Solitaire.tsx:50-58 | rank values are A=1, 2-10 their face value, J=11, Q=12, K=13: the one-based position in the rank order |
| Cards.RankValuePlace | src/apps/Solitaire.tsx:50-58 | a rank value lies in 1..13 and is the rank's one-based place in the rank order, so the value gives the rank back |
| Cards.SuitIndex | src/apps/Solitaire.tsx:23 | every suit is in the suit list |
| Cards.RankIndex | src/apps/Solitaire.tsx:24 | every rank is in the rank list |
| Cards.DeckIsEveryCardOnce | src/apps/Solitaire.tsx:26-37 | the 52 cards before the shuffle are pairwise distinct and every (suit, rank) has its card |
| Cards.NewDeck | src/apps/Solitaire.tsx:27-37 | the nested loops push the ordered deck: suit by suit, each in rank order |
| Cards.FloorIndex | src/apps/Solitaire.tsx:44 | `Math.floor(Math.random() * (i + 1))` is an index in `[0, i]` |
| Cards.Swap | src/apps/Solitaire.tsx:45 | the destructuring swap exchanges two entries and keeps the multiset |
| Cards.ShuffleDeck | src/apps/Solitaire.tsx:41-48 | Fisher-Yates from the last index down to 1 returns a permutation of the deck |
| Cards.CreateDeck | src/apps/Solitaire.tsx:26-39 | the shuffled deck holds every one of the 52 cards exactly once |
| Cards.FoundationStaysBuilt | src/apps/Solitaire.tsx:60-66 | a legal placement keeps a foundation one suit from the ace upward, so it never exceeds 13 cards |
| Cards.RunStaysAlternating | src/apps/Solitaire.tsx:68-74 | a legal placement extends an alternating descending run, and an empty column starts with a king |
| Cards.CanPlaceOnFoundation | src/apps/Solitaire.tsx:60-66 | an accepted card is an ace iff the foundation is empty, and nothing is accepted on a king |
| Cards.CanPlaceOnTableau | src/apps/Solitaire.tsx:68-74 | an accepted card is a king iff the column is empty, and nothing is accepted on an ace |
| Cards.DealtColumns | src/apps/Solitaire.tsx:83-90 | the deal makes as many columns as asked for |
| Cards.Deal | src/apps/Solitaire.tsx:80-92 | the nested deal loops give column `c` the next `c + 1` cards in deck order, and the stock is the rest of the deck, from card 28 on |
| Cards.DealPartitions | src/apps/Solitaire.tsx:83-90 | the dealt columns read in order are the first cards of the deck, column `c` holding `c + 1` of them |
| Cards.DealUsesEveryCard | src/apps/Solitaire.tsx:80-92 | from a full deck the columns followed by the 24-card stock are the deck |
| Solitaire.ContentsByGroup | src/apps/Solitaire.tsx:15-18 | the cards of the game are the foundations', the columns', the waste's and the stock's together |
| Solitaire.ContentsAreAllCards | src/apps/Solitaire.tsx:15-18 | counting the cards pile by pile is the same as listing every card of every pile |
| Solitaire.Place | src/apps/Solitaire.tsx:140-166 | putting a card on a foundation or column keeps four foundations and seven columns |
| Solitaire.RemoveSource | src/apps/Solitaire.tsx:148-174 | taking the source's top card keeps four foundations and seven columns |
| Solitaire.SourceCard | src/apps/Solitaire.tsx:130-135 | corrected: there is a source card iff the selection names the top card of the waste or a column, and it is that top card |
| Solitaire.SourceCardAsWritten | src/apps/Solitaire.tsx:130-135 | as written: there is a source card iff the index lies within the waste or the column, and it is the card at that index; on the top card it agrees with the corrected source |
| Solitaire.Move | src/apps/Solitaire.tsx:126-179 | a move keeps four foundations and seven columns |
| Solitaire.TopNotPlaceableOnOwnColumn | src/apps/Solitaire.tsx:68-74 | a column's top card is never accepted by that same column |
| Solitaire.SourceIsNotDestination | src/apps/Solitaire.tsx:126-179 | whenever a move is accepted, its source pile and its destination pile differ |
| Solitaire.MoveEffect | src/apps/Solitaire.tsx:126-179 | a move happens iff the selection names the top card of the waste or a column and the destination accepts it; then that card leaves the top of the source and lands on the destination, every other pile and the stock unchanged; otherwise nothing changes |
| Solitaire.PushCard | src/apps/Solitaire.tsx:143-166 | appending a card to one pile adds exactly that card to the piles' contents |
| Solitaire.PopCard | src/apps/Solitaire.tsx:149-173 | `slice(0, -1)` on a non-empty pile removes exactly its top card from the piles' contents |
| Solitaire.PlaceAdds | src/apps/Solitaire.tsx:143-166 | placing a card adds exactly that card to the game |
| Solitaire.RemoveTakes | src/apps/Solitaire.tsx:148-174 | removing from the waste or a column takes exactly its top card out of the game |
| Solitaire.PlaceThenRemove | src/apps/Solitaire.tsx:140-176 | placing one card and then taking another pile's top card swaps the one for the other in the game's contents |
| Solitaire.MoveConserves | src/apps/Solitaire.tsx:126-179 | a move neither creates nor loses a card |
| Solitaire.MoveAsWritten | src/apps/Solitaire.tsx:126-179 | the move as written keeps four foundations and seven columns |
| Solitaire.MoveAsWrittenFromWaste | src/apps/Solitaire.tsx:126-179 | as written, a waste move adds the card at the selected index and removes the waste's top card |
| Solitaire.StaleWasteSelection | src/apps/Solitaire.tsx:97-149 | with an ace alone on the waste as the selection, a draw keeps the selection; clicking an empty foundation then copies the ace and drops the drawn card, while the corrected move refuses |
| Solitaire.StaleSetupExample | src/apps/Solitaire.tsx:97-103 | a concrete layout that meets the finding's setup exists |
| Solitaire.Reverse | src/apps/Solitaire.tsx:105 | `[...waste].reverse()` puts the card at position `k` at position `length - 1 - k` |
| Solitaire.ReverseMultiset | src/apps/Solitaire.tsx:105 | reversal keeps the cards |
| Solitaire.Draw | src/apps/Solitaire.tsx:97-109 | a move is counted iff the stock or the waste holds a card, and otherwise the layout is unchanged; from a non-empty stock its first card becomes the top of the waste; from an empty stock the waste empties into a stock of the same size |
| Solitaire.DrawMovesStockAndWaste | src/apps/Solitaire.tsx:97-109 | drawing moves cards only between stock and waste, losing none, with the foundations and columns untouched |
| Solitaire.DrawConserves | src/apps/Solitaire.tsx:97-109 | drawing neither creates nor loses a card |
| Solitaire.DrawWholeStock | src/apps/Solitaire.tsx:97-109 | drawing the whole stock lays it on the waste in order; one more draw turns the waste back into the stock reversed |
| Solitaire.FlattenLength | src/apps/Solitaire.tsx:187 | the `reduce` sum of pile lengths is the number of cards on the piles, zero iff every pile is empty |
| Solitaire.WonMeansAllOnFoundations | src/apps/Solitaire.tsx:185-191 | in a game holding each card once, 52 foundation cards happen iff the stock, the waste and every column are empty |
| Solitaire.DealtLayout | src/apps/Solitaire.tsx:76-95 | the new layout has four foundations and seven columns |
| Solitaire.DealtConserved | src/apps/Solitaire.tsx:76-95 | dealing a full deck lays out each of the 52 cards exactly once |
| Solitaire.Game.constructor | src/apps/Solitaire.tsx:15-21 | the `useState` initial values: empty piles, no selection, no moves, not won |
| Solitaire.Game.NewGame | src/apps/Solitaire.tsx:76-95 | a shuffled full deck dealt 1..7 to the columns, the rest to the stock, waste and foundations empty, selection, moves and the win flag reset |
| Solitaire.Game.DrawFromStock | src/apps/Solitaire.tsx:97-109 | the board becomes its drawn form, a move is counted iff a card moved, the selection is kept, conservation is preserved |
| Solitaire.Game.MoveCard | src/apps/Solitaire.tsx:126-179 | the board becomes the corrected move's result, a move is counted iff it happened, conservation is preserved |
| Solitaire.Game.CheckWin | src/apps/Solitaire.tsx:185-191 | the board is untouched and the game is won iff it was already or the foundations hold 52 cards |
| Solitaire.Game.HandleCardClick | src/apps/Solitaire.tsx:111-124 | with a selection, makes the corrected move to the clicked pile (a selection no longer naming its pile's top card moves nothing), clears it and rechecks the win; without one, selects the click only when it names the top card of the waste or a column; conservation is preserved |
| Solitaire.Game.Selectable | src/apps/Solitaire.tsx:118-121 | a click with nothing selected selects exactly when the corrected move would find a source card there |
| ArcadeGame.StepBack | src/apps/ArcadeGame.tsx:64-77 | a step is undone by exactly the step in the opposite direction; `opposites` is an involution without fixed points |
| ArcadeGame.TurnAsWritten | src/apps/ArcadeGame.tsx:126-158 | as written: the request is taken iff it does not reverse the last request, and the result is the request or the last request, never its reverse |
| ArcadeGame.Turn | src/apps/ArcadeGame.tsx:126-200 | corrected: the request is taken iff it does not reverse the heading or equals the current direction; a current direction that does not reverse the heading stays so |
| ArcadeGame.Advance | src/apps/ArcadeGame.tsx:59-112 | a tick crashes iff the new head leaves the 20×20 grid or lands on any segment, tail included; otherwise the snake grows iff the head reaches the food (new head, whole old body), and slides otherwise (new head, body without its last segment) |
| ArcadeGame.AdvanceKeepsShape | src/apps/ArcadeGame.tsx:59-112 | a tick keeps a snake on the grid and free of overlaps, and a slide keeps food that was off the snake off it |
| ArcadeGame.SlideShaped | src/apps/ArcadeGame.tsx:93-110 | a slide keeps the game's shape invariant, with the direction just moved as the new heading |
| ArcadeGame.GrowShaped | src/apps/ArcadeGame.tsx:93-105 | growing keeps the shape invariant once the new food lies on a free grid cell |
| ArcadeGame.NoReversal | src/apps/ArcadeGame.tsx:126-200 | under the corrected turn rule, the direction kept never steps the head onto the neck |
| ArcadeGame.DoubleTurnReverses | src/apps/ArcadeGame.tsx:126-158 | as written, pressing Up then Left within one tick of moving right turns a two-segment snake onto its own neck; the corrected rule slides it up |
| ArcadeGame.FirstFreeDraw | src/apps/ArcadeGame.tsx:29-34 | the first candidate cell off the snake is a candidate and is off the snake |
| ArcadeGame.GenerateFood | src/apps/ArcadeGame.tsx:27-36 | the do-while loop returns the first drawn cell that no segment occupies |
| ArcadeGame.Speed | src/apps/ArcadeGame.tsx:105 | the tick interval stays between 100 and 200 ms and is 200 − 5·eaten until it reaches 100 |
| ArcadeGame.SpeedUp | src/apps/ArcadeGame.tsx:105 | each piece of food applies `Math.max(100, prev - 5)` to the interval |
| ArcadeGame.Game.constructor | src/apps/ArcadeGame.tsx:11-25 | the whole state is the `useState` initial values: one segment at (10, 10), food at (15, 10), direction and heading right, score and high score 0, not playing, not over, 200 ms; the shape invariant holds |
| ArcadeGame.Game.ResetGame | src/apps/ArcadeGame.tsx:38-46 | every field returns to its initial value except the high score, which is kept; play stops |
| ArcadeGame.Game.StartGame | src/apps/ArcadeGame.tsx:48-53 | play starts; a finished game is first reset with its high score kept; a paused one resumes with every other field unchanged |
| ArcadeGame.Game.PauseGame | src/apps/ArcadeGame.tsx:55-57 | play stops and every other field is unchanged |
| ArcadeGame.Game.MoveSnake | src/apps/ArcadeGame.tsx:59-112 | a crash ends the game and stops play, every other field unchanged; a slide moves the snake and records the direction moved as the heading; eating grows it, adds 10 points, places the new food on the first free draw, speeds the interval and records the heading; the high score is the maximum seen; the corrected shape invariant is kept |
| ArcadeGame.Game.Crawl | src/apps/ArcadeGame.tsx:93-110 | the slide branch replaces the snake and records the direction moved as the heading; every other field is unchanged |
| ArcadeGame.Game.Eat | src/apps/ArcadeGame.tsx:93-105 | the food branch replaces the snake, adds 10 points, keeps the high score the maximum, draws free food, speeds up and records the heading; every other field is unchanged |
| ArcadeGame.Game.Steer | src/apps/ArcadeGame.tsx:126-200 | corrected rule: the direction becomes `Turn` of the heading last moved, the old direction and the request, every other field unchanged, so the next step never lands on the neck |
| ArcadeGame.Game.HandleKeyPress | src/apps/ArcadeGame.tsx:114-164 | while stopped, only Space or Enter start (resetting a finished game); while playing, arrows and W/A/S/D steer by the corrected turn rule, Space pauses, other keys change nothing; every field not named is unchanged |
| ArcadeGame.Game.HandleDirectionClick | src/apps/ArcadeGame.tsx:187-200 | while playing, the on-screen arrows steer by the corrected turn rule and change only the direction; while stopped they change nothing |
| ArcadeGame.KeyDirection | src/apps/ArcadeGame.tsx:126-158 | the steering keys never include Space or Enter |
| Calculator.Calculate | src/apps/Calculator.tsx:42-55 | an unknown operation yields the second operand; under the four operators NaN in gives NaN out, and finite operands give a finite result except on division by zero |
| Calculator.CalculateFinite | src/apps/Calculator.tsx:42-55 | on finite operands the four operators are real addition, subtraction, multiplication and division; dividing by zero gives NaN for 0 ÷ 0 and a signed infinity otherwise; any other operation returns the second operand |
| Calculator.CalculateAlgebra | src/apps/Calculator.tsx:42-55 | `+` and `×` commute on every number, infinities and NaN included, and NaN as first operand gives NaN under every operator |
| Calculator.OrZero | src/apps/Calculator.tsx:31 | `previousValue \|\| 0` turns NaN and zero into zero and keeps every other number |
| Calculator.LeftToRight | src/apps/Calculator.tsx:25-40 | chained operators apply in arrival order: 2 + 3 × 4 is 20, where precedence would give 14 |
| Calculator.InputNumber | src/apps/Calculator.tsx:16-23 | a digit replaces the display after an operator or on a lone "0" and is appended otherwise; it ends the wait for an operand and touches nothing else |
| Calculator.InputDecimal | src/apps/Calculator.tsx:83-90 | the decimal key changes only the display and the wait for an operand |
| Calculator.DecimalOnce | src/apps/Calculator.tsx:83-90 | after the decimal key the display holds a point, exactly one when it held at most one before, and without a pending operator the display only gains a trailing point or stays |
| Calculator.PointAt | src/apps/Calculator.tsx:87 | `indexOf('.')` finds a point at a position exactly when that character is a point |
| Calculator.InputOperation | src/apps/Calculator.tsx:25-40 | an operator stores the parsed display when nothing is pending, and otherwise applies the pending operator to `previousValue \|\| 0` and the display, showing and storing the result; either way it records the new operator and waits for an operand |
| Calculator.PerformCalculation | src/apps/Calculator.tsx:57-70 | `=` with an operation pending shows the result, appends one tape entry for it and clears what was pending; without one it changes nothing |
| Calculator.ClearAll | src/apps/Calculator.tsx:72-77 | AC returns to the initial state but keeps the history |
| Calculator.ClearEntry | src/apps/Calculator.tsx:79-81 | CE resets the display only |
| Calculator.PendingKept | src/apps/Calculator.tsx:25-81 | every handler keeps a stored value exactly when an operation is stored |
| Calculator.HistoryOnlyGrows | src/apps/Calculator.tsx:57-90 | only `=` touches the history, and then only by appending at most one entry |
| Calculator.ImmediateExecution | src/apps/Calculator.tsx:25-40 | `a op1 b op2` shows and stores `(a \|\| 0) op1 b`, then waits for op2's operand |
| Calculator.OperatorTwice | src/apps/Calculator.tsx:25-40 | pressing `+` then `×` with 5 displayed applies `+` to the display again and shows 10 |
| Calculator.Tape | src/apps/Calculator.tsx:145 | `history.slice(-10)` is the last ten entries, or all of them when fewer |
| Calculator.TapeShowsNewest | src/apps/Calculator.tsx:145 | the newest entry is shown last; on a full tape it pushes out the oldest one shown |
| Calculator.Calculator.constructor | src/apps/Calculator.tsx:10-14 | the `useState` initial values |
| Calculator.Calculator.HandleInputNumber | src/apps/Calculator.tsx:16-23 | the fields become `InputNumber` of the old state |
| Calculator.Calculator.HandleInputDecimal | src/apps/Calculator.tsx:83-90 | the fields become `InputDecimal` of the old state |
| Calculator.Calculator.HandleInputOperation | src/apps/Calculator.tsx:25-40 | the fields become `InputOperation` of the old state |
| Calculator.Calculator.HandlePerformCalculation | src/apps/Calculator.tsx:57-70 | the fields become `PerformCalculation` of the old state |
| Calculator.Calculator.HandleClearAll | src/apps/Calculator.tsx:72-77 | the fields become `ClearAll` of the old state |
| Calculator.Calculator.HandleClearEntry | src/apps/Calculator.tsx:79-81 | the fields become `ClearEntry` of the old state |

## Left out

- File I/O, `process.exit`, console output and the `setTimeout` delays between AI calls are not modelled. The file contents a script reads, whether a file exists and whether credentials are present are parameters; a file write is a returned value.
- The AI services (the Bedrock and Ollama clients) are oracles: total functions that yield a translation or a validation, or `None` for a call that throws. Their prompts, network calls and answer parsing are not part of this model.
- `Math.random()` is a sequence of numbers in [0, 1) for the shuffle and a sequence of candidate cells for the food draw.
- `parseFloat` and `String(number)` are parameters of the calculator. Floating-point rounding (0.1 + 0.2), the sign of zero and overflow to infinity are not modelled: finite values are exact reals.
- The interval timer, the keydown listener, `preventDefault` and all rendering are left to the caller. Each handler of the three apps runs as one atomic step, the way React applies the setters of one event together.
- `ArcadeGame.GenerateFood` requires a free cell among the draws. The source's do-while loop keeps drawing until one appears, so a draw sequence without one is not modelled.
- `ArcadeGame.Game.MoveSnake` requires a free cell next to the grown snake among the draws, for the same reason.
- ArcadeGame.Game.Steer: the class steers by the corrected rule `Turn`, refusing a turn that reverses the direction last moved. The app refuses only the reverse of the last request, which is `ArcadeGame.TurnAsWritten`. `HandleKeyPress` and `HandleDirectionClick` steer through `Steer`. What the app does instead is shown by `ArcadeGame.DoubleTurnReverses`.
- ArcadeGame.Game.MoveSnake: requires the corrected invariant `Valid()`, which includes that the direction does not reverse the heading. The app can leave that invariant (Up then Left within one tick), and that state is modelled by `ArcadeGame.DoubleTurnReverses`, not by the class.
- Solitaire.Game.HandleCardClick: makes the corrected move, so a selection that no longer names its pile's top card moves nothing. The app instead copies the selected card and drops the top one, as `Solitaire.MoveAsWritten` and `Solitaire.StaleWasteSelection` show.
- The TypeScript compiler's parser and its node traversal (`ts.createSourceFile`, `forEachChild`) are not modelled. The syntax tree is reduced to the node shapes the coverage test inspects, and only what the test does at one node is modelled.
- `I18nCoverage.GetSourceFiles` states which files are listed, each once, but not their order. The order depends on `readdirSync`.
- Json.Put: a new key is appended after the existing ones. JavaScript enumerates integer-like keys ("0", "1", ...) of a plain object first, in ascending order, so for such keys the model's key order differs. Counts, lookups and the idempotence of the merge do not depend on key order.
- The `in` operator and the bracket read of the merge and the validation see only own keys. Inherited properties such as `constructor` and the special key `__proto__` are not modelled.
- Locale trees that are not objects or arrays are not modelled. The merge, the AI translation, the validation and the leaf counts require an object or an array at the top. From such a file, `JSON.parse` gives a string, number, boolean or null; `Object.entries` then walks a string's characters, finds nothing in a number or boolean, and throws on null.
- AiOnboard.OnboardWithAi stops with `EnglishNotAnObject` when `en.json` holds no object or array. The script instead walks such a value the way `Object.entries` does, as in the previous line.
- `ListLanguages.SortStrings` orders strings by character code. JavaScript's `sort()` compares UTF-16 code units, which differs only for characters outside the Basic Multilingual Plane.
- The per-language loops of the AI translation and validation scripts, which read and write one file per language, are not modelled. What they do for one locale is modelled (`AiTranslate.UpdatedLocale`, `AiValidate.ValidateTranslations`), as are the choice of languages (`LocaleDirectory.AiTargets`, `AiValidate.ValidationStart`) and the summing of the report (`AiValidate.ReportSums`).
- `src/apps/RainbowGenerator.tsx`, the other pages, the i18n configuration and the rendering and end-to-end tests are not part of this model.

## Findings

| source | as written | input that shows it | evidently intended | confidence | as-written member | corrected member |
|---|---|---|---|---|---|---|
| src/apps/Solitaire.tsx:97-109, 111-124, 130-131, 148-149, 169-170 | drawing keeps a pending waste selection; `moveCard` places `waste[from.index]` but removes the last waste card | an ace alone on the waste is selected, the stock is drawn once, then an empty foundation is clicked: the ace is copied onto the foundation and the drawn card disappears | a move takes exactly the selected card, which must still be the top of its pile, and conserves the 52 cards | not executed | Solitaire.StaleWasteSelection | Solitaire.MoveConserves, Solitaire.Game.HandleCardClick |
| src/apps/ArcadeGame.tsx:126-158, 187-200 | a turn is refused only when it is opposite to the direction last requested, which a tick may not yet have moved in | a two-segment snake moving right gets Up and then Left before the next tick: the head turns onto its own neck and the game ends | a turn is refused when it is opposite to the direction the snake last moved in | not executed | ArcadeGame.DoubleTurnReverses | ArcadeGame.NoReversal, ArcadeGame.Game.Steer |
