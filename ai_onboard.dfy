/**
 * Onboarding a language with AI translations: the argument checks shared with
 * the placeholder onboarding, a credentials check, then a new locale whose
 * every English string has been sent to the translator; a string whose
 * translation throws becomes "[TRANSLATION_FAILED] <english>".
 */
module AiOnboard {
  import opened Wrappers
  import opened Strings
  import opened Json
  import opened ListLanguages
  import opened Services
  import opened LeafWalk
  import opened Placeholders
  import opened Markers

  /** What is written for a string whose translation threw. */
  function FailedText(s: string): string {
    FailedTag + " " + s
  }

  /** What happens to one English string: its translation, or the failure text. */
  function OnboardRewrite(language: string, translate: Translator): Rewrite {
    (s, path) => Some(match translate(s, language, path) case Some(t) => t case None => FailedText(s))
  }

  /** `translateObject(obj, targetLanguage, aiService, keyPrefix)`: a fresh object
      that receives, key by key in `Object.entries` order, the translated value. */
  method TranslateObject(obj: Json, language: string, translate: Translator, prefix: string)
    returns (result: Json)
    requires IsObject(obj) && WellFormed(obj)
    ensures result == Walked(obj, OnboardRewrite(language, translate), prefix)
    decreases obj, 2
  {
    ghost var f := OnboardRewrite(language, translate);
    var source := EntriesOf(obj);
    var entries: seq<(string, Json)> := [];
    var i := 0;
    while i < |source|
      invariant i <= |source| && entries == Walked(obj, f, prefix).entries[..i]
    {
      var key := source[i].0;
      var newValue := TranslateEntry(obj, i, language, translate, prefix);
      FreshStep(obj, f, prefix, i, newValue);
      entries := Put(entries, key, newValue);
      i := i + 1;
    }
    assert entries == Walked(obj, f, prefix).entries;
    result := Obj(entries);
  }

  /** The loop body for entry `i`: a string goes to the translator, a nested object
      or array is translated recursively, anything else is copied. */
  method TranslateEntry(obj: Json, i: nat, language: string, translate: Translator, prefix: string)
    returns (newValue: Json)
    requires WellFormed(obj) && i < Size(obj)
    ensures (KeyAt(obj, i), newValue) == WalkedEntry(obj, OnboardRewrite(language, translate), prefix, i)
    decreases obj, 1
  {
    var value := ValueAt(obj, i);
    EntriesOfWellFormed(obj);
    var path := KeyPath(prefix, KeyAt(obj, i));
    if value.Str? {
      var translation := translate(value.s, language, path);
      if translation.Some? {
        newValue := Str(translation.value);
      } else {
        newValue := Str(FailedText(value.s));
      }
    } else if IsObject(value) {
      newValue := TranslateObject(value, language, translate, path);
    } else {
      newValue := value;
    }
  }

  /** Every English string is rewritten: the new locale has as many strings as the
      English one, each either a translation or a failure text. */
  lemma OnboardRewritesEveryString(english: Json, language: string, translate: Translator)
    requires IsObject(english)
    ensures StringLeaves(Walked(english, OnboardRewrite(language, translate), "")) == StringLeaves(english)
    ensures Rewritten(english, OnboardRewrite(language, translate), "") == StringLeaves(english)
  {
    var f := OnboardRewrite(language, translate);
    WalkKeepsStringLeaves(english, f, "");
    RewrittenAtMostLeaves(english, f, "");
  }

  /** The position of the first argument not starting with "--". */
  function FirstNonFlag(args: seq<string>): (r: Option<nat>)
    ensures r.Some? ==> (r.value < |args| && !StartsWith(args[r.value], "--")
                         && forall k :: 0 <= k < r.value ==> StartsWith(args[k], "--"))
    ensures r.None? ==> forall k :: 0 <= k < |args| ==> StartsWith(args[k], "--")
  {
    if |args| == 0 then None
    else if !StartsWith(args[0], "--") then Some(0)
    else match FirstNonFlag(args[1..])
      case None => None
      case Some(i) => Some(i + 1)
  }

  /** The command line: the language code is the first argument not starting with
      "--" (none when every argument does), and "--skip-ai" anywhere skips the
      translator. */
  function ParseArgs(args: seq<string>): (r: (Option<string>, bool))
    ensures r.0.None? <==> forall k :: 0 <= k < |args| ==> StartsWith(args[k], "--")
    ensures r.0.Some? ==> (exists i :: (0 <= i < |args| && args[i] == r.0.value
                                        && !StartsWith(r.0.value, "--")
                                        && forall k :: 0 <= k < i ==> StartsWith(args[k], "--")))
    ensures r.1 <==> "--skip-ai" in args
  {
    var code := match FirstNonFlag(args) case None => None case Some(i) => Some(args[i]);
    (code, "--skip-ai" in args)
  }

  /** `onboardLanguageWithAI(languageCode, skipAI)`: the same checks as the
      placeholder onboarding; with "--skip-ai" the same placeholder tree, otherwise
      the credentials check and the translated tree. File existence, the
      credentials answer and the translator are passed in. */
  function OnboardWithAi(code: Option<string>, skipAI: bool, localeExists: string -> bool,
                         englishExists: bool, english: Json, hasCredentials: bool,
                         translate: Translator): (r: OnboardOutcome)
    ensures skipAI ==> r == OnboardLanguage(code, localeExists, englishExists, english)
    ensures !skipAI ==> (r.Created? <==> (code.Some? && ValidLanguageCode(code.value)
                                          && !localeExists(code.value + ".json") && englishExists
                                          && hasCredentials && IsObject(english)))
    ensures !skipAI && r.Created? ==> (r.file == code.value + ".json"
                                      && r.content == Walked(english, OnboardRewrite(code.value, translate), ""))
  {
    if code.None? || code.value == "" then CodeRequired
    else if !ValidLanguageCode(code.value) then BadCodeFormat
    else if localeExists(code.value + ".json") then LanguageExists
    else if !englishExists then EnglishMissing
    else if skipAI then OnboardLanguage(code, localeExists, englishExists, english)
    else if !hasCredentials then CredentialsMissing
    else if !IsObject(english) then EnglishNotAnObject
    else Created(code.value + ".json", Walked(english, OnboardRewrite(code.value, translate), ""))
  }
}
