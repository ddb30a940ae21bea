/**
 * Onboarding a language with placeholders: every string of the English tree
 * becomes "[<path>] - TRANSLATE: <english>", where <path> names the string's
 * position; and the language-code format both onboarding scripts accept.
 * The AI onboarding script carries its own copy of the placeholder function
 * with the same rules; this one definition models both.
 */
module Placeholders {
  import opened Wrappers
  import opened Strings
  import opened Json
  import opened ListLanguages
  import opened Markers

  /** The placeholder written for the English string `s` found at `path`. */
  function PlaceholderText(path: string, s: string): string {
    "[" + path + "] - TRANSLATE: " + s
  }

  /** The path of element `i` of an array found at `prefix`. */
  function IndexPath(prefix: string, i: nat): string {
    prefix + "[" + NatToString(i) + "]"
  }

  /** `createPlaceholderTranslations(obj, keyPrefix)`: a string becomes a marked
      placeholder, an object keeps its keys in order, and a number, boolean or
      null is kept. Unlike the other scripts, it keeps an array an array of the
      same length (it maps over it). */
  function CreatePlaceholders(j: Json, prefix: string): (r: Json)
    ensures j.Str? <==> r.Str?
    ensures j.Str? ==> IsUntranslated(r.s) && EndsWith(r.s, j.s)
    ensures j.Arr? <==> r.Arr?
    ensures j.Arr? ==> |r.items| == |j.items|
    ensures j.Obj? <==> r.Obj?
    ensures j.Obj? ==> |r.entries| == |j.entries| && forall i :: 0 <= i < |j.entries| ==> r.entries[i].0 == j.entries[i].0
    ensures !j.Str? && !j.Arr? && !j.Obj? ==> r == j
    decreases j
  {
    match j
    case Str(s) =>
      PlaceholderIsUntranslated(prefix, s);
      Str(PlaceholderText(prefix, s))
    case Arr(items) =>
      Arr(seq(|items|, i requires 0 <= i < |items| => CreatePlaceholders(items[i], IndexPath(prefix, i))))
    case Obj(es) =>
      Obj(seq(|es|, i requires 0 <= i < |es| => (es[i].0, CreatePlaceholders(es[i].1, KeyPath(prefix, es[i].0)))))
    case _ => j
  }

  /** Two trees have the same shape: the same arrays (by length) and objects (by
      key sequence) at the same places, strings where strings were, and equal
      numbers, booleans and nulls. */
  predicate SameShape(a: Json, b: Json)
    decreases a
  {
    match a
    case Str(_) => b.Str?
    case Arr(xs) => b.Arr? && |xs| == |b.items|
      && forall i :: 0 <= i < |xs| ==> SameShape(xs[i], b.items[i])
    case Obj(es) => b.Obj? && |es| == |b.entries|
      && (forall i :: 0 <= i < |es| ==> es[i].0 == b.entries[i].0)
      && (forall i :: 0 <= i < |es| ==> SameShape(es[i].1, b.entries[i].1))
    case _ => a == b
  }

  /** Every string anywhere in the tree satisfies "contains TRANSLATE:". */
  predicate AllStringsUntranslated(j: Json)
    decreases j
  {
    match j
    case Str(s) => IsUntranslated(s)
    case Arr(xs) => forall i :: 0 <= i < |xs| ==> AllStringsUntranslated(xs[i])
    case Obj(es) => forall i :: 0 <= i < |es| ==> AllStringsUntranslated(es[i].1)
    case _ => true
  }

  /** The marker sits right after "[<path>] - ". */
  lemma PlaceholderIsUntranslated(path: string, s: string)
    ensures IsUntranslated(PlaceholderText(path, s))
  {
    var t := PlaceholderText(path, s);
    var at := |path| + 5;
    assert t[at..at + |TranslateMarker|] == TranslateMarker;
    assert OccursAt(t, TranslateMarker, at);
  }

  /** The placeholder tree has the input's shape exactly: same keys in the same
      order, arrays of the same length, numbers, booleans and null unchanged. */
  lemma {:induction false} PlaceholdersKeepShape(j: Json, prefix: string)
    ensures SameShape(j, CreatePlaceholders(j, prefix))
    decreases j
  {
    match j
    case Str(_) =>
    case Arr(xs) =>
      forall i | 0 <= i < |xs|
        ensures SameShape(xs[i], CreatePlaceholders(j, prefix).items[i])
      {
        PlaceholdersKeepShape(xs[i], IndexPath(prefix, i));
      }
    case Obj(es) =>
      forall i | 0 <= i < |es|
        ensures SameShape(es[i].1, CreatePlaceholders(j, prefix).entries[i].1)
      {
        PlaceholdersKeepShape(es[i].1, KeyPath(prefix, es[i].0));
      }
    case _ =>
  }

  /** Every string of an onboarded locale is a "TRANSLATE:" placeholder. */
  lemma {:induction false} PlaceholdersAllUntranslated(j: Json, prefix: string)
    ensures AllStringsUntranslated(CreatePlaceholders(j, prefix))
    decreases j
  {
    match j
    case Str(s) => PlaceholderIsUntranslated(prefix, s);
    case Arr(xs) =>
      forall i | 0 <= i < |xs|
        ensures AllStringsUntranslated(CreatePlaceholders(j, prefix).items[i])
      {
        PlaceholdersAllUntranslated(xs[i], IndexPath(prefix, i));
      }
    case Obj(es) =>
      forall i | 0 <= i < |es|
        ensures AllStringsUntranslated(CreatePlaceholders(j, prefix).entries[i].1)
      {
        PlaceholdersAllUntranslated(es[i].1, KeyPath(prefix, es[i].0));
      }
    case _ =>
  }

  /** Trees of the same shape have the same number of string leaves. */
  lemma {:induction false} SameShapeSameLeaves(a: Json, b: Json)
    requires SameShape(a, b)
    ensures StringLeaves(a) == StringLeaves(b)
    decreases a, 1
  {
    if IsObject(a) {
      SameShapeSameLeavesUpTo(a, b, Size(a));
    }
  }

  lemma {:induction false} SameShapeSameLeavesUpTo(a: Json, b: Json, n: nat)
    requires SameShape(a, b) && IsObject(a) && n <= Size(a)
    ensures Size(b) == Size(a) && StringLeavesUpTo(a, n) == StringLeavesUpTo(b, n)
    decreases a, 0, n
  {
    if n > 0 {
      SameShapeSameLeavesUpTo(a, b, n - 1);
      SameShapeSameLeaves(ValueAt(a, n - 1), ValueAt(b, n - 1));
    }
  }

  /** When every string is a placeholder, every string leaf is an untranslated one. */
  lemma {:induction false} AllUntranslatedCounts(j: Json)
    requires AllStringsUntranslated(j)
    ensures UntranslatedLeaves(j) == StringLeaves(j)
    decreases j, 1
  {
    if IsObject(j) {
      AllUntranslatedCountsUpTo(j, Size(j));
    }
  }

  lemma {:induction false} AllUntranslatedCountsUpTo(j: Json, n: nat)
    requires AllStringsUntranslated(j) && IsObject(j) && n <= Size(j)
    ensures UntranslatedLeavesUpTo(j, n) == StringLeavesUpTo(j, n)
    decreases j, 0, n
  {
    if n > 0 {
      AllUntranslatedCountsUpTo(j, n - 1);
      assert AllStringsUntranslated(ValueAt(j, n - 1));
      AllUntranslatedCounts(ValueAt(j, n - 1));
    }
  }

  /** A freshly onboarded locale lists as "0/N translated" with N the number of
      English strings (or "Complete" when English has none). */
  lemma OnboardedLocaleIsUntranslated(english: Json)
    ensures StringLeaves(CreatePlaceholders(english, "")) == StringLeaves(english)
    ensures UntranslatedLeaves(CreatePlaceholders(english, "")) == StringLeaves(english)
  {
    PlaceholdersKeepShape(english, "");
    SameShapeSameLeaves(english, CreatePlaceholders(english, ""));
    PlaceholdersAllUntranslated(english, "");
    AllUntranslatedCounts(CreatePlaceholders(english, ""));
  }

  predicate IsAsciiLower(c: char) { 'a' <= c <= 'z' }
  predicate IsAsciiUpper(c: char) { 'A' <= c <= 'Z' }

  /** `/^[a-z]{2}(-[A-Z]{2})?$/.test(code)`, the check both onboarding scripts
      apply. A code that passes has no dot and no slash, so `<code>.json` names
      a file directly in the locale directory. */
  predicate ValidLanguageCode(code: string)
    ensures ValidLanguageCode(code) ==> |code| == 2 || |code| == 5
    ensures ValidLanguageCode(code) ==> forall k :: 0 <= k < |code| ==> code[k] != '.' && code[k] != '/' && code[k] != '\\'
  {
    (|code| == 2 || (|code| == 5 && code[2] == '-' && IsAsciiUpper(code[3]) && IsAsciiUpper(code[4])))
    && IsAsciiLower(code[0]) && IsAsciiLower(code[1])
  }

  /** The same language, read as the regular expression reads: a two-letter
      lower-case base, then either nothing or a hyphen and a two-letter
      upper-case region. */
  lemma ValidLanguageCodeIsPattern(code: string)
    ensures ValidLanguageCode(code) <==>
      exists base: string, region: string ::
        code == base + region
        && |base| == 2 && IsAsciiLower(base[0]) && IsAsciiLower(base[1])
        && (region == "" || (|region| == 3 && region[0] == '-' && IsAsciiUpper(region[1]) && IsAsciiUpper(region[2])))
  {
    if ValidLanguageCode(code) {
      assert code == code[..2] + code[2..];
    }
  }

  /** What `onboardLanguage` does. */
  datatype OnboardOutcome =
    | CodeRequired            // no argument, or an empty one
    | BadCodeFormat           // the argument fails the format check
    | LanguageExists          // `<code>.json` is already there
    | EnglishMissing          // `en.json` is not there
    | CredentialsMissing      // AI onboarding only: the service finds no credentials
    | EnglishNotAnObject      // AI onboarding only: `en.json` holds no object or array
    | Created(file: string, content: Json)

  /** `onboardLanguage(process.argv[2])`: the checks in order, then a new locale
      file holding the placeholder tree. File existence is passed in. */
  function OnboardLanguage(argument: Option<string>, localeExists: string -> bool,
                           englishExists: bool, english: Json): (r: OnboardOutcome)
    ensures r.Created? <==> (argument.Some? && ValidLanguageCode(argument.value)
                             && !localeExists(argument.value + ".json") && englishExists)
    ensures r.Created? ==> (r.file == argument.value + ".json"
                            && SameShape(english, r.content) && AllStringsUntranslated(r.content))
  {
    if argument.None? || argument.value == "" then CodeRequired
    else if !ValidLanguageCode(argument.value) then BadCodeFormat
    else if localeExists(argument.value + ".json") then LanguageExists
    else if !englishExists then EnglishMissing
    else
      PlaceholdersKeepShape(english, "");
      PlaceholdersAllUntranslated(english, "");
      Created(argument.value + ".json", CreatePlaceholders(english, ""))
  }
}
