/**
 * How the scripts hand work to each other through the marker strings: a
 * placeholder written by the onboarding scripts, and a string the AI onboarding
 * marked as failed, are both picked up again by the AI translation, which
 * hands the translator the original English text.
 */
module Workflow {
  import opened Wrappers
  import opened Strings
  import opened Markers
  import opened Placeholders
  import opened AiOnboard
  import opened AiTranslate

  /** In `[path] - TRANSLATE: s` the first "TRANSLATE:" is the one the script
      wrote after the path, when the path holds none. */
  lemma PlaceholderMarkerFirst(path: string, s: string)
    requires !Contains(path, TranslateMarker)
    ensures IndexOf(PlaceholderText(path, s), TranslateMarker) == Some(|path| + 5)
  {
    var t := PlaceholderText(path, s);
    assert t[|path| + 5..|path| + 15] == TranslateMarker;
    forall p: nat | p < |path| + 5
      ensures !OccursAt(t, TranslateMarker, p)
    {
      NoMarkerBefore(path, s, p);
    }
    FirstOccurrence(t, TranslateMarker, |path| + 5);
  }

  /** No "TRANSLATE:" starts in the `[path] - ` part: it would have to start with
      the bracket, lie inside the path, cover the closing bracket, or start on
      the dash or a space. */
  lemma NoMarkerBefore(path: string, s: string, p: nat)
    requires !Contains(path, TranslateMarker) && p < |path| + 5
    ensures !OccursAt(PlaceholderText(path, s), TranslateMarker, p)
  {
    var t := PlaceholderText(path, s);
    var n := |path|;
    if p == 0 {
      CharRulesOut(t, TranslateMarker, p, 0);
    } else if p + 10 <= n + 1 {
      if OccursAt(t, TranslateMarker, p) {
        assert t[p..p + 10] == path[p - 1..p + 9];
        OccursContains(path, TranslateMarker, p - 1);
      }
    } else if p <= n + 1 {
      assert t[n + 1] == ']';
      CharRulesOut(t, TranslateMarker, p, n + 1);
    } else {
      assert t[p] in " - ";
      CharRulesOut(t, TranslateMarker, p, p);
    }
  }

  /** What follows the marker is the English string after one space. */
  lemma PlaceholderAfterMarker(path: string, s: string)
    requires !Contains(path, TranslateMarker) && !Contains(s, TranslateMarker)
    ensures Contains(PlaceholderText(path, s), TranslateMarker)
    ensures Split(PlaceholderText(path, s), TranslateMarker)[1] == " " + s
  {
    var t := PlaceholderText(path, s);
    PlaceholderMarkerFirst(path, s);
    SplitAtFirst(t, TranslateMarker, |path| + 5);
    var rest := t[|path| + 15..];
    assert rest == " " + s;
    CharRulesOut(rest, TranslateMarker, 0, 0);
    NotContainsPastPrefix(" ", s, TranslateMarker);
  }

  /** A placeholder written by the onboarding scripts is picked up, and the
      translator is handed the English string, trimmed, provided neither the
      path nor the string contains "TRANSLATE:" itself. */
  lemma PlaceholderRoundTrip(path: string, s: string)
    requires !Contains(path, TranslateMarker) && !Contains(s, TranslateMarker)
    ensures IsPlaceholder(PlaceholderText(path, s))
    ensures OriginalText(PlaceholderText(path, s)) == Trim(s)
  {
    PlaceholderMarkerFirst(path, s);
    PlaceholderAfterMarker(path, s);
    TrimSkipsLeadingSpace(s);
  }

  /** "[TRANSLATION_FAILED] s" holds no "TRANSLATE:" when `s` holds none. */
  lemma FailedTextNoMarker(s: string)
    requires !Contains(s, TranslateMarker)
    ensures !Contains(FailedText(s), TranslateMarker)
  {
    var tag := FailedTag + " ";
    var t := tag + s;
    assert FailedText(s) == t;
    forall p: nat | p < |tag|
      ensures !OccursAt(t, TranslateMarker, p)
    {
      // the next character at or after p that "TRANSLATE:" lacks
      var k := if p == 0 then 0 else if p <= 9 then 9 else if p == 10 then 10
               else if p <= 12 then 12 else if p == 13 then 13 else if p <= 15 then 15
               else if p <= 18 then 18 else p;
      assert t[k] == tag[k];
      CharRulesOut(t, TranslateMarker, p, k);
    }
    NotContainsPastPrefix(tag, s, TranslateMarker);
  }

  /** Removing the first "[TRANSLATION_FAILED]" leaves the space and the string. */
  lemma FailedTextStripped(s: string)
    ensures ReplaceFirst(FailedText(s), FailedTag, "") == " " + s
    ensures Contains(FailedText(s), FailedMarker)
  {
    var t := FailedText(s);
    assert t[..20] == FailedTag;
    assert t[1..19] == FailedMarker;
    OccursContains(t, FailedMarker, 1);
    FirstOccurrence(t, FailedTag, 0);
    assert t[20..] == " " + s;
  }

  /** A string the AI onboarding could not translate is picked up again, and the
      translator is handed the English string, trimmed, provided the string
      does not contain "TRANSLATE:". */
  lemma FailedRoundTrip(s: string)
    requires !Contains(s, TranslateMarker)
    ensures IsPlaceholder(FailedText(s))
    ensures OriginalText(FailedText(s)) == Trim(s)
  {
    FailedTextNoMarker(s);
    FailedTextStripped(s);
    TrimSkipsLeadingSpace(s);
  }
}
