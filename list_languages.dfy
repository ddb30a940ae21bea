/**
 * The language listing: counting the string leaves of a locale tree, counting
 * the ones still holding a "TRANSLATE:" placeholder, the status line derived
 * from the two counts, and the sorted list of locale files.
 */
module ListLanguages {
  import opened Strings
  import opened Json
  import opened Markers

  /** A string still awaiting translation, as the listing sees it. */
  predicate IsUntranslated(s: string) {
    Contains(s, TranslateMarker)
  }

  /** The string leaves of a tree, reached through objects and arrays; numbers,
      booleans and null are not keys. */
  function StringLeaves(j: Json): nat
    decreases j, 1
  {
    if j.Str? then 1 else if IsObject(j) then StringLeavesUpTo(j, Size(j)) else 0
  }

  /** The string leaves under the first `n` entries of `j`. */
  function StringLeavesUpTo(j: Json, n: nat): nat
    requires n <= Size(j)
    decreases j, 0, n
  {
    if n == 0 then 0 else StringLeavesUpTo(j, n - 1) + StringLeaves(ValueAt(j, n - 1))
  }

  /** The string leaves containing "TRANSLATE:". */
  function UntranslatedLeaves(j: Json): nat
    decreases j, 1
  {
    if j.Str? then (if IsUntranslated(j.s) then 1 else 0)
    else if IsObject(j) then UntranslatedLeavesUpTo(j, Size(j)) else 0
  }

  function UntranslatedLeavesUpTo(j: Json, n: nat): nat
    requires n <= Size(j)
    decreases j, 0, n
  {
    if n == 0 then 0 else UntranslatedLeavesUpTo(j, n - 1) + UntranslatedLeaves(ValueAt(j, n - 1))
  }

  /** `countKeys`: a loop over `Object.values` that adds one per string and
      recurses into objects and arrays. */
  method CountKeys(obj: Json) returns (count: nat)
    requires IsObject(obj)
    ensures count == StringLeaves(obj)
    decreases obj
  {
    count := 0;
    var i := 0;
    while i < Size(obj)
      invariant i <= Size(obj)
      invariant count == StringLeavesUpTo(obj, i)
    {
      var value := ValueAt(obj, i);
      if value.Str? {
        count := count + 1;
      } else if IsObject(value) {
        var nested := CountKeys(value);
        count := count + nested;
      }
      i := i + 1;
    }
  }

  /** `countUntranslatedKeys`: the same walk, counting strings that contain
      "TRANSLATE:"; "[TRANSLATION_FAILED] ..." strings are not counted. */
  method CountUntranslatedKeys(obj: Json) returns (count: nat)
    requires IsObject(obj)
    ensures count == UntranslatedLeaves(obj)
    decreases obj
  {
    count := 0;
    var i := 0;
    while i < Size(obj)
      invariant i <= Size(obj)
      invariant count == UntranslatedLeavesUpTo(obj, i)
    {
      var value := ValueAt(obj, i);
      if value.Str? && IsUntranslated(value.s) {
        count := count + 1;
      } else if IsObject(value) {
        var nested := CountUntranslatedKeys(value);
        count := count + nested;
      }
      i := i + 1;
    }
  }

  /** Every untranslated key is a key, so the "translated" figure of the status
      line is never negative. */
  lemma {:induction false} UntranslatedAtMostKeys(j: Json)
    ensures UntranslatedLeaves(j) <= StringLeaves(j)
    decreases j, 1
  {
    if IsObject(j) {
      UntranslatedAtMostKeysUpTo(j, Size(j));
    }
  }

  lemma {:induction false} UntranslatedAtMostKeysUpTo(j: Json, n: nat)
    requires n <= Size(j)
    ensures UntranslatedLeavesUpTo(j, n) <= StringLeavesUpTo(j, n)
    decreases j, 0, n
  {
    if n > 0 {
      UntranslatedAtMostKeysUpTo(j, n - 1);
      UntranslatedAtMostKeys(ValueAt(j, n - 1));
    }
  }

  datatype Status =
    | Source                                  // the English source file
    | Complete                                // nothing left to translate
    | InProgress(translated: nat, total: nat) // shown as translated/total

  /** The status column: "en" is the source; any other language is complete iff
      none of its strings contains "TRANSLATE:", and otherwise shows how many of
      its strings are translated out of how many. */
  function StatusOf(languageCode: string, content: Json): (st: Status)
    ensures st.Source? <==> languageCode == "en"
    ensures st.Complete? <==> languageCode != "en" && UntranslatedLeaves(content) == 0
    ensures st.InProgress? ==> (st.total == StringLeaves(content)
                                && st.translated + UntranslatedLeaves(content) == st.total
                                && st.translated < st.total)
  {
    var keyCount := StringLeaves(content);
    var untranslated := UntranslatedLeaves(content);
    UntranslatedAtMostKeys(content);
    if languageCode == "en" then Source
    else if untranslated == 0 then Complete
    else InProgress(keyCount - untranslated, keyCount)
  }

  /** `a <= b` between strings as `Array.prototype.sort` compares them by default:
      lexicographically, character by character. */
  predicate LexLessEq(a: string, b: string)
    decreases |a|
  {
    |a| == 0 || (|b| > 0 && (a[0] < b[0] || (a[0] == b[0] && LexLessEq(a[1..], b[1..]))))
  }

  lemma {:induction false} LexTotal(a: string, b: string)
    ensures LexLessEq(a, b) || LexLessEq(b, a)
    decreases |a|
  {
    if |a| > 0 && |b| > 0 && a[0] == b[0] {
      LexTotal(a[1..], b[1..]);
    }
  }

  lemma {:induction false} LexTransitive(a: string, b: string, c: string)
    requires LexLessEq(a, b) && LexLessEq(b, c)
    ensures LexLessEq(a, c)
    decreases |a|
  {
    if |a| > 0 && a[0] == b[0] && b[0] == c[0] {
      LexTransitive(a[1..], b[1..], c[1..]);
    }
  }

  predicate Sorted(s: seq<string>) {
    forall i, j :: 0 <= i < j < |s| ==> LexLessEq(s[i], s[j])
  }

  function Insert(x: string, s: seq<string>): (r: seq<string>)
    requires Sorted(s)
    ensures Sorted(r) && multiset(r) == multiset(s) + multiset{x}
  {
    if |s| == 0 then [x]
    else if LexLessEq(x, s[0]) then
      assert forall j :: 0 < j < |s| ==> LexLessEq(x, s[j]) by {
        forall j | 0 < j < |s| { LexTransitive(x, s[0], s[j]); }
      }
      [x] + s
    else
      LexTotal(x, s[0]);
      var rest := Insert(x, s[1..]);
      assert s == [s[0]] + s[1..];
      assert forall j :: 0 <= j < |rest| ==> LexLessEq(s[0], rest[j]) by {
        forall j | 0 <= j < |rest|
          ensures LexLessEq(s[0], rest[j])
        {
          assert rest[j] in multiset(rest);
          assert rest[j] == x || rest[j] in multiset(s[1..]);
          if rest[j] != x {
            var k :| 0 <= k < |s[1..]| && s[1..][k] == rest[j];
            assert s[k + 1] == rest[j];
          }
        }
      }
      [s[0]] + rest
  }

  /** `files.sort()`: the same strings, in ascending order. */
  function SortStrings(s: seq<string>): (r: seq<string>)
    ensures Sorted(r) && multiset(r) == multiset(s)
  {
    if |s| == 0 then []
    else
      assert s == s[..|s| - 1] + [s[|s| - 1]];
      Insert(s[|s| - 1], SortStrings(s[..|s| - 1]))
  }

  /** `files.filter(file => file.endsWith('.json'))`. */
  function JsonFiles(files: seq<string>): (r: seq<string>)
    ensures forall f :: f in r <==> f in files && EndsWith(f, ".json")
  {
    if |files| == 0 then []
    else JsonFiles(files[..|files| - 1])
         + (if EndsWith(files[|files| - 1], ".json") then [files[|files| - 1]] else [])
  }

  /** The locale files the listing shows: the `.json` files of the directory,
      sorted, each listed as often as the directory lists it. */
  function ListedLocaleFiles(directory: seq<string>): (r: seq<string>)
    ensures Sorted(r)
    ensures multiset(r) == multiset(JsonFiles(directory))
    ensures forall f :: f in r <==> f in directory && EndsWith(f, ".json")
  {
    var r := SortStrings(JsonFiles(directory));
    assert forall f :: f in r <==> f in multiset(r);
    r
  }
}
