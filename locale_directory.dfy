/**
 * The locale directory as the scripts see it: a list of file names. Which files
 * are locales, which language a file holds, and which languages a run works on.
 */
module LocaleDirectory {
  import opened Wrappers
  import opened Strings

  /** A language code given on the command line: `process.argv[2]`, used only when
      it is a non-empty string. */
  predicate Requested(language: Option<string>) {
    language.Some? && language.value != ""
  }

  /** The locale files to update: `.json` files other than `en.json`, narrowed to
      `<language>.json` when a language is requested. */
  function LocaleFiles(directory: seq<string>, language: Option<string>): (r: seq<string>)
    ensures forall f :: f in r <==> (f in directory && EndsWith(f, ".json") && f != "en.json"
                                   && (Requested(language) ==> f == language.value + ".json"))
    ensures |r| <= |directory|
  {
    if |directory| == 0 then []
    else
      var f := directory[|directory| - 1];
      LocaleFiles(directory[..|directory| - 1], language)
      + (if EndsWith(f, ".json") && f != "en.json" && (Requested(language) ==> f == language.value + ".json")
         then [f] else [])
  }

  /** The language code of a locale file: the file name without its first ".json";
      a name without ".json" is its own code. */
  function LanguageOf(file: string): (r: string)
    ensures !Contains(file, ".json") ==> r == file
    ensures Contains(file, ".json") ==> |r| == |file| - |".json"|
  {
    ReplaceFirst(file, ".json", "")
  }

  /** The code of `<code>.json` is `code`, provided `code` holds no ".json" itself. */
  lemma LanguageOfFile(code: string)
    requires !Contains(code, ".json")
    ensures LanguageOf(code + ".json") == code
  {
    var t := code + ".json";
    var n := |code|;
    assert t[n..] == ".json";
    forall p: nat | p < n
      ensures !OccursAt(t, ".json", p)
    {
      if p + 5 <= n {
        if OccursAt(t, ".json", p) {
          assert t[p..p + 5] == code[p..p + 5];
          OccursContains(code, ".json", p);
        }
      } else {
        assert t[n] == '.';
        MismatchAt(t, ".json", p, n);
      }
    }
    FirstOccurrence(t, ".json", n);
    assert t[..n] == code;
  }

  /** Whom the AI translation and validation work on. */
  datatype Targets =
    | Languages(codes: seq<string>)
    | UnknownLanguage(code: string, available: seq<string>)

  /** A requested language must have its file (any file `<code>.json`, English
      included); without one, every locale file other than English. */
  function AiTargets(directory: seq<string>, language: Option<string>): (r: Targets)
    ensures r.UnknownLanguage? <==> Requested(language) && language.value + ".json" !in directory
    ensures Requested(language) && language.value + ".json" in directory ==> r == Languages([language.value])
    ensures !Requested(language) ==> r.Languages? && |r.codes| == |LocaleFiles(directory, None)|
    ensures r.UnknownLanguage? ==> |r.available| == |LocaleFiles(directory, None)|
    ensures r.UnknownLanguage? ==> r.code == language.value
    ensures r.UnknownLanguage? ==>
      forall i :: 0 <= i < |r.available| ==> r.available[i] == LanguageOf(LocaleFiles(directory, None)[i])
    ensures !Requested(language) ==>
      forall i :: 0 <= i < |r.codes| ==> r.codes[i] == LanguageOf(LocaleFiles(directory, None)[i])
  {
    var all := LocaleFiles(directory, None);
    var codes := seq(|all|, i requires 0 <= i < |all| => LanguageOf(all[i]));
    if Requested(language) then
      if language.value + ".json" in directory then Languages([language.value])
      else UnknownLanguage(language.value, codes)
    else Languages(codes)
  }

  /** Without a requested language, the language of every locale file other than
      English is a target, and every target is the language of such a file. */
  lemma EveryLocaleTargeted(directory: seq<string>)
    ensures var codes := AiTargets(directory, None).codes;
      forall f :: f in directory && EndsWith(f, ".json") && f != "en.json" ==> LanguageOf(f) in codes
    ensures var codes := AiTargets(directory, None).codes;
      forall c :: c in codes ==>
        exists f :: f in directory && EndsWith(f, ".json") && f != "en.json" && c == LanguageOf(f)
  {
    var all := LocaleFiles(directory, None);
    var codes := AiTargets(directory, None).codes;
    forall f | f in directory && EndsWith(f, ".json") && f != "en.json"
      ensures LanguageOf(f) in codes
    {
      var k :| 0 <= k < |all| && all[k] == f;
      assert codes[k] == LanguageOf(f);
    }
    forall c | c in codes
      ensures exists f :: f in directory && EndsWith(f, ".json") && f != "en.json" && c == LanguageOf(f)
    {
      var k :| 0 <= k < |codes| && codes[k] == c;
      assert all[k] in all;
    }
  }
}
