/**
 * Translating the placeholders of an existing locale: every string that still
 * carries "TRANSLATE:" or "TRANSLATION_FAILED" is handed, without its marker, to
 * the translator; a successful translation replaces it and is counted, a
 * throw keeps the placeholder.
 */
module AiTranslate {
  import opened Wrappers
  import opened Strings
  import opened Json
  import opened ListLanguages
  import opened Services
  import opened LeafWalk
  import opened Markers

  /** A string the script tries to translate. */
  predicate IsPlaceholder(s: string) {
    Contains(s, TranslateMarker) || Contains(s, FailedMarker)
  }

  /** The English text inside a placeholder: after "TRANSLATE:" (up to a second
      occurrence, if any) when that marker is present, otherwise the string
      without its first "[TRANSLATION_FAILED]"; trimmed either way. */
  function OriginalText(s: string): (r: string)
    ensures Trim(r) == r && |r| <= |s|
    ensures !Contains(s, TranslateMarker) && !Contains(s, FailedTag) ==> r == Trim(s)
  {
    if Contains(s, TranslateMarker) then
      var t := Split(s, TranslateMarker)[1];
      SplitPieceLength(s, TranslateMarker, 1);
      TrimIdempotent(t);
      Trim(t)
    else
      var t := ReplaceFirst(s, FailedTag, "");
      TrimIdempotent(t);
      Trim(t)
  }

  /** What happens to one string: a placeholder is replaced by the translation of
      its text when the translator answers; any other string is kept. */
  function PlaceholderRewrite(language: string, translate: Translator): Rewrite {
    (s, path) => if IsPlaceholder(s) then translate(OriginalText(s), language, path) else None
  }

  lemma RewriteOf(language: string, translate: Translator, s: string, path: string)
    ensures PlaceholderRewrite(language, translate)(s, path)
         == if IsPlaceholder(s) then translate(OriginalText(s), language, path) else None
  {
  }

  /** `translatePlaceholders(obj, targetLanguage, aiService, keyPrefix)`: copies the
      entries of `obj`, then assigns each replaced value to its key while
      counting replacements. */
  method TranslatePlaceholders(obj: Json, language: string, translate: Translator, prefix: string)
    returns (result: Json, translatedCount: nat)
    requires IsObject(obj) && WellFormed(obj)
    ensures result == Walked(obj, PlaceholderRewrite(language, translate), prefix)
    ensures translatedCount == Rewritten(obj, PlaceholderRewrite(language, translate), prefix)
    decreases obj, 2
  {
    ghost var f := PlaceholderRewrite(language, translate);
    var source := EntriesOf(obj);
    var entries := source;
    translatedCount := 0;
    ghost var target := Walked(obj, f, prefix).entries;
    var i := 0;
    CopyStart(obj, target);
    while i < |source|
      invariant CopiedUpTo(obj, target, entries, i)
      invariant translatedCount == RewrittenUpTo(obj, f, prefix, i)
    {
      var key := source[i].0;
      var newValue, written;
      newValue, written, translatedCount := TranslateEntry(obj, i, language, translate, prefix, translatedCount);
      CopyStep(obj, target, entries, i, newValue, written);
      if written {
        entries := Put(entries, key, newValue);
      }
      i := i + 1;
    }
    CopyDone(obj, target, entries);
    result := Obj(entries);
  }

  /** The loop body for entry `i`: a placeholder goes to the translator (a throw
      keeps it), a nested object or array is translated recursively, anything
      else is left alone. `written` tells whether `result[key]` is assigned;
      `count` is the running count after this entry. */
  method TranslateEntry(obj: Json, i: nat, language: string, translate: Translator, prefix: string,
                        countBefore: nat)
    returns (newValue: Json, written: bool, count: nat)
    requires WellFormed(obj) && i < Size(obj) && IsObject(obj)
    requires countBefore == RewrittenUpTo(obj, PlaceholderRewrite(language, translate), prefix, i)
    ensures (KeyAt(obj, i), newValue) == WalkedEntry(obj, PlaceholderRewrite(language, translate), prefix, i)
    ensures count == RewrittenUpTo(obj, PlaceholderRewrite(language, translate), prefix, i + 1)
    ensures !written ==> newValue == ValueAt(obj, i)
    decreases obj, 1
  {
    ghost var f := PlaceholderRewrite(language, translate);
    var value := ValueAt(obj, i);
    EntriesOfWellFormed(obj);
    var path := KeyPath(prefix, KeyAt(obj, i));
    assert RewrittenUpTo(obj, f, prefix, i + 1) == countBefore + RewrittenValue(value, f, path);
    newValue, written, count := value, false, countBefore;
    if value.Str? {
      RewriteOf(language, translate, value.s, path);
      if IsPlaceholder(value.s) {
        var original := OriginalText(value.s);
        var translation := translate(original, language, path);
        if translation.Some? {
          newValue, written, count := Str(translation.value), true, count + 1;
        }
      }
    } else if IsObject(value) {
      var nestedCount;
      newValue, nestedCount := TranslatePlaceholders(value, language, translate, path);
      written, count := true, count + nestedCount;
    }
  }

  /** The locale file is rewritten exactly when something was translated. */
  function UpdatedLocale(existing: Json, language: string, translate: Translator): (r: Option<Json>)
    requires IsObject(existing)
    ensures r.Some? <==> Rewritten(existing, PlaceholderRewrite(language, translate), "") > 0
    ensures r.Some? ==> r.value == Walked(existing, PlaceholderRewrite(language, translate), "")
  {
    var f := PlaceholderRewrite(language, translate);
    if Rewritten(existing, f, "") > 0 then Some(Walked(existing, f, "")) else None
  }
}
