/**
 * Bringing existing locales up to date with the English one: every English key a
 * locale lacks is added (a placeholder for a string, a copy for a number,
 * boolean or null, a recursive merge into `{}` for an object or array), nested
 * objects present on both sides are merged recursively, and everything else
 * the locale has is kept. `addedCount` counts the leaves added.
 */
module UpdateLanguages {
  import opened Wrappers
  import opened Strings
  import opened Json
  import opened ListLanguages
  import opened Placeholders
  import opened LocaleDirectory

  /** What `mergeTranslations` returns: the entries of `result` and `addedCount`. */
  datatype Merge = Merge(entries: seq<(string, Json)>, added: nat)

  /** `mergeTranslations(englishObj, targetObj, keyPrefix)`: start from a copy of
      the target and merge the English entries in, in order. */
  function Merged(english: Json, target: Json, prefix: string): Merge
    requires IsObject(english) && IsObject(target)
    decreases english, 2
  {
    MergedUpTo(english, target, prefix, Size(english))
  }

  /** The state of `result` and `addedCount` after the first `n` English entries. */
  function MergedUpTo(english: Json, target: Json, prefix: string, n: nat): Merge
    requires IsObject(english) && IsObject(target) && n <= Size(english)
    decreases english, 1, n
  {
    if n == 0 then Merge(EntriesOf(target), 0)
    else MergeEntry(english, prefix, n - 1, MergedUpTo(english, target, prefix, n - 1))
  }

  /** English entry `i` merged into `acc`: a missing key is assigned its new value,
      a key present on both sides as objects or arrays is assigned their merge,
      and any other present key is left alone. */
  function MergeEntry(english: Json, prefix: string, i: nat, acc: Merge): Merge
    requires IsObject(english) && i < Size(english)
    decreases english, 0
  {
    var key := KeyAt(english, i);
    var existing := Lookup(acc.entries, key);
    var value := ValueAt(english, i);
    if existing.Some? && !(IsObject(value) && IsObject(existing.value)) then acc
    else
      var c := MergeChild(value, existing, KeyPath(prefix, key));
      Merge(Put(acc.entries, key, c.0), acc.added + c.1)
  }

  /** The value a key ends up with, from its English value and what the target
      had under it, and the leaves that adds. */
  function MergeChild(value: Json, existing: Option<Json>, path: string): (Json, nat)
    decreases value, 3
  {
    match existing
    case None =>
      if value.Str? then (Str(PlaceholderText(path, value.s)), 1)
      else if IsObject(value) then
        var m := Merged(value, Obj([]), path);
        (Obj(m.entries), m.added)
      else (value, 1)
    case Some(prev) =>
      if IsObject(value) && IsObject(prev) then
        var m := Merged(value, prev, path);
        (Obj(m.entries), m.added)
      else (prev, 0)
  }

  /** `mergeTranslations`: copies the target, then walks `Object.entries` of the
      English object assigning missing and merged keys and counting. */
  method MergeTranslations(english: Json, target: Json, prefix: string)
    returns (result: Json, addedCount: nat)
    requires IsObject(english) && IsObject(target)
    ensures result == Obj(Merged(english, target, prefix).entries)
    ensures addedCount == Merged(english, target, prefix).added
    decreases english, 2
  {
    var source := EntriesOf(english);
    var entries := EntriesOf(target);
    addedCount := 0;
    var i := 0;
    while i < |source|
      invariant i <= |source|
      invariant Merge(entries, addedCount) == MergedUpTo(english, target, prefix, i)
    {
      entries, addedCount := MergeKey(english, i, prefix, entries, addedCount);
      i := i + 1;
    }
    result := Obj(entries);
  }

  /** The loop body for English entry `i`. */
  method MergeKey(english: Json, i: nat, prefix: string, entries: seq<(string, Json)>, addedBefore: nat)
    returns (entries': seq<(string, Json)>, added: nat)
    requires IsObject(english) && i < Size(english)
    ensures Merge(entries', added) == MergeEntry(english, prefix, i, Merge(entries, addedBefore))
    decreases english, 1
  {
    var key := KeyAt(english, i);
    var englishValue := ValueAt(english, i);
    var path := KeyPath(prefix, key);
    var existing := Lookup(entries, key);
    entries', added := entries, addedBefore;
    if existing.None? {
      if englishValue.Str? {
        entries' := Put(entries, key, Str(PlaceholderText(path, englishValue.s)));
        added := added + 1;
      } else if IsObject(englishValue) {
        var nested, nestedCount := MergeTranslations(englishValue, Obj([]), path);
        entries' := Put(entries, key, nested);
        added := added + nestedCount;
      } else {
        entries' := Put(entries, key, englishValue);
        added := added + 1;
      }
    } else if IsObject(englishValue) && IsObject(existing.value) {
      var nested, nestedCount := MergeTranslations(englishValue, existing.value, path);
      entries' := Put(entries, key, nested);
      added := added + nestedCount;
    }
  }

  // ---------------------------------------------------------------------------
  // What the merge leaves under each key

  /** Merging one entry touches its own key only; that key then holds what the
      accumulated result had, or the merged child. */
  lemma MergeEntryLookup(english: Json, prefix: string, i: nat, acc: Merge, k: string)
    requires IsObject(english) && i < Size(english)
    ensures k != KeyAt(english, i) ==> Lookup(MergeEntry(english, prefix, i, acc).entries, k) == Lookup(acc.entries, k)
    ensures k == KeyAt(english, i) ==>
              Lookup(MergeEntry(english, prefix, i, acc).entries, k)
              == Some(MergeChild(ValueAt(english, i), Lookup(acc.entries, k), KeyPath(prefix, k)).0)
  {
    var key := KeyAt(english, i);
    var c := MergeChild(ValueAt(english, i), Lookup(acc.entries, key), KeyPath(prefix, key));
    PutLookup(acc.entries, key, c.0);
  }

  lemma {:induction false} MergeKeepsOthersUpTo(english: Json, target: Json, prefix: string, n: nat, k: string)
    requires IsObject(english) && IsObject(target) && n <= Size(english)
    requires forall i :: 0 <= i < n ==> KeyAt(english, i) != k
    ensures Lookup(MergedUpTo(english, target, prefix, n).entries, k) == Lookup(EntriesOf(target), k)
    decreases n
  {
    if n > 0 {
      var before := MergedUpTo(english, target, prefix, n - 1);
      MergeKeepsOthersUpTo(english, target, prefix, n - 1, k);
      assert KeyAt(english, n - 1) != k;
      MergeEntryLookup(english, prefix, n - 1, before, k);
      assert MergedUpTo(english, target, prefix, n) == MergeEntry(english, prefix, n - 1, before);
    }
  }

  /** A key English does not have reads back what the target had under it: keys
      only the target has are preserved. */
  lemma MergeKeepsTargetOnlyKeys(english: Json, target: Json, prefix: string, k: string)
    requires IsObject(english) && IsObject(target)
    requires forall i :: 0 <= i < Size(english) ==> KeyAt(english, i) != k
    ensures Lookup(Merged(english, target, prefix).entries, k) == Lookup(EntriesOf(target), k)
  {
    MergeKeepsOthersUpTo(english, target, prefix, Size(english), k);
  }

  /** With distinct English keys, no earlier entry has the key of entry `i`. */
  lemma EarlierKeysDiffer(english: Json, i: nat)
    requires IsObject(english) && WellFormed(english) && i < Size(english)
    ensures forall j :: 0 <= j < Size(english) && j != i ==> KeyAt(english, j) != KeyAt(english, i)
  {
    EntriesOfWellFormed(english);
    forall j | 0 <= j < Size(english) && j != i
      ensures KeyAt(english, j) != KeyAt(english, i)
    {
      if j < i {
        assert EntriesOf(english)[j].0 != EntriesOf(english)[i].0;
      } else {
        assert EntriesOf(english)[i].0 != EntriesOf(english)[j].0;
      }
    }
  }

  lemma {:induction false} MergeAtUpTo(english: Json, target: Json, prefix: string, n: nat, i: nat)
    requires IsObject(english) && IsObject(target) && WellFormed(english) && i < n <= Size(english)
    ensures Lookup(MergedUpTo(english, target, prefix, n).entries, KeyAt(english, i))
         == Some(MergeChild(ValueAt(english, i), Lookup(EntriesOf(target), KeyAt(english, i)),
                            KeyPath(prefix, KeyAt(english, i))).0)
    decreases n
  {
    var k := KeyAt(english, i);
    EarlierKeysDiffer(english, i);
    MergeEntryLookup(english, prefix, n - 1, MergedUpTo(english, target, prefix, n - 1), k);
    if n - 1 == i {
      MergeKeepsOthersUpTo(english, target, prefix, i, k);
    } else {
      MergeAtUpTo(english, target, prefix, n - 1, i);
    }
  }

  /** Every English key is present after the merge, with the value `MergeChild`
      gives from the target's own value: a placeholder for a missing string, a
      copy of a missing number, boolean or null, the merge into `{}` of a
      missing object, the merge of two objects, or else the target's value. */
  lemma MergeAt(english: Json, target: Json, prefix: string, i: nat)
    requires IsObject(english) && IsObject(target) && WellFormed(english) && i < Size(english)
    ensures Lookup(Merged(english, target, prefix).entries, KeyAt(english, i))
         == Some(MergeChild(ValueAt(english, i), Lookup(EntriesOf(target), KeyAt(english, i)),
                            KeyPath(prefix, KeyAt(english, i))).0)
  {
    MergeAtUpTo(english, target, prefix, Size(english), i);
  }

  /** What `MergeChild` yields, case by case, with the source's reading of it. */
  lemma MergeChildCases(value: Json, existing: Option<Json>, path: string)
    ensures existing.None? && value.Str? ==> MergeChild(value, existing, path).0 == Str(PlaceholderText(path, value.s))
    ensures existing.None? && value.Str? ==> IsUntranslated(MergeChild(value, existing, path).0.s)
    ensures existing.None? && !value.Str? && !IsObject(value) ==> MergeChild(value, existing, path) == (value, 1)
    ensures existing.Some? && !(IsObject(value) && IsObject(existing.value)) ==> MergeChild(value, existing, path) == (existing.value, 0)
    ensures IsObject(value) && (existing.None? || IsObject(existing.value)) ==> MergeChild(value, existing, path).0.Obj?
  {
    if existing.None? && value.Str? {
      PlaceholderIsUntranslated(path, value.s);
    }
  }

  /** Every English key is present in `result`, and so on recursively wherever
      English and the result both hold an object or array under a key. */
  predicate Covers(english: Json, result: Json)
    decreases english
  {
    IsObject(english) && result.Obj? &&
    forall i :: 0 <= i < Size(english) ==>
      var r := Lookup(result.entries, KeyAt(english, i));
      r.Some? && (IsObject(ValueAt(english, i)) && IsObject(r.value) ==> Covers(ValueAt(english, i), r.value))
  }

  lemma {:induction false} MergeCovers(english: Json, target: Json, prefix: string)
    requires IsObject(english) && IsObject(target) && WellFormed(english)
    ensures Covers(english, Obj(Merged(english, target, prefix).entries))
    decreases english
  {
    var r := Merged(english, target, prefix).entries;
    EntriesOfWellFormed(english);
    forall i | 0 <= i < Size(english)
      ensures var v := Lookup(r, KeyAt(english, i));
              v.Some? && (IsObject(ValueAt(english, i)) && IsObject(v.value) ==> Covers(ValueAt(english, i), v.value))
    {
      var value := ValueAt(english, i);
      var existing := Lookup(EntriesOf(target), KeyAt(english, i));
      var path := KeyPath(prefix, KeyAt(english, i));
      MergeAt(english, target, prefix, i);
      if IsObject(value) {
        match existing
        case None => MergeCovers(value, Obj([]), path);
        case Some(prev) =>
          if IsObject(prev) {
            MergeCovers(value, prev, path);
          }
      }
    }
  }

  // ---------------------------------------------------------------------------
  // addedCount counts the inserted leaves

  /** The leaves of a tree: strings, numbers, booleans and nulls reached through
      objects and arrays. */
  function Leaves(j: Json): nat
    decreases j, 1
  {
    if IsObject(j) then LeavesUpTo(j, Size(j)) else 1
  }

  function LeavesUpTo(j: Json, n: nat): nat
    requires n <= Size(j)
    decreases j, 0, n
  {
    if n == 0 then 0 else LeavesUpTo(j, n - 1) + Leaves(ValueAt(j, n - 1))
  }

  lemma {:induction false} LeavesOfEntriesUpTo(j: Json, n: nat)
    requires IsObject(j) && n <= Size(j)
    ensures LeavesUpTo(Obj(EntriesOf(j)), n) == LeavesUpTo(j, n)
  {
    if n > 0 {
      LeavesOfEntriesUpTo(j, n - 1);
    }
  }

  /** Spreading an object or array into a fresh object keeps its leaves. */
  lemma LeavesOfEntries(j: Json)
    requires IsObject(j)
    ensures Leaves(Obj(EntriesOf(j))) == Leaves(j)
  {
    LeavesOfEntriesUpTo(j, Size(j));
  }

  lemma {:induction false} LeavesAppendUpTo(es: seq<(string, Json)>, x: (string, Json), n: nat)
    requires n <= |es|
    ensures LeavesUpTo(Obj(es + [x]), n) == LeavesUpTo(Obj(es), n)
  {
    if n > 0 {
      LeavesAppendUpTo(es, x, n - 1);
    }
  }

  lemma {:induction false} LeavesUpdateUpTo(es: seq<(string, Json)>, i: nat, x: (string, Json), n: nat)
    requires i < |es| && n <= |es|
    ensures LeavesUpTo(Obj(es[i := x]), n) + (if i < n then Leaves(es[i].1) else 0)
         == LeavesUpTo(Obj(es), n) + (if i < n then Leaves(x.1) else 0)
  {
    if n > 0 {
      LeavesUpdateUpTo(es, i, x, n - 1);
    }
  }

  /** `obj[key] = v` trades the leaves of the prev value, if any, for those of `v`. */
  lemma LeavesPut(es: seq<(string, Json)>, k: string, v: Json)
    ensures Leaves(Obj(Put(es, k, v))) + (match Lookup(es, k) case Some(prev) => Leaves(prev) case None => 0)
         == Leaves(Obj(es)) + Leaves(v)
  {
    PutKeys(es, k, v);
    LookupKeys(es, k);
    if Lookup(es, k).Some? {
      PutReplaces(es, k, v);
      LeavesUpdateUpTo(es, KeyIndex(es, k), (k, v), |es|);
    } else {
      LeavesAppendUpTo(es, (k, v), |es|);
    }
  }

  lemma {:induction false} MergeChildLeaves(value: Json, existing: Option<Json>, path: string)
    ensures Leaves(MergeChild(value, existing, path).0)
         == MergeChild(value, existing, path).1 + (match existing case Some(prev) => Leaves(prev) case None => 0)
    decreases value, 2
  {
    match existing
    case None =>
      if IsObject(value) {
        MergeCountsLeaves(value, Obj([]), path);
      }
    case Some(prev) =>
      if IsObject(value) && IsObject(prev) {
        MergeCountsLeaves(value, prev, path);
      }
  }

  lemma {:induction false} MergeCountsLeavesUpTo(english: Json, target: Json, prefix: string, n: nat)
    requires IsObject(english) && IsObject(target) && n <= Size(english)
    ensures Leaves(Obj(MergedUpTo(english, target, prefix, n).entries))
         == Leaves(target) + MergedUpTo(english, target, prefix, n).added
    decreases english, 0, n
  {
    if n == 0 {
      LeavesOfEntries(target);
    } else {
      MergeCountsLeavesUpTo(english, target, prefix, n - 1);
      var acc := MergedUpTo(english, target, prefix, n - 1);
      var key := KeyAt(english, n - 1);
      var existing := Lookup(acc.entries, key);
      var value := ValueAt(english, n - 1);
      if !(existing.Some? && !(IsObject(value) && IsObject(existing.value))) {
        var c := MergeChild(value, existing, KeyPath(prefix, key));
        LeavesPut(acc.entries, key, c.0);
        MergeChildLeaves(value, existing, KeyPath(prefix, key));
      }
    }
  }

  /** `addedCount` is exactly the number of leaves the merge inserts. */
  lemma MergeCountsLeaves(english: Json, target: Json, prefix: string)
    requires IsObject(english) && IsObject(target)
    ensures Leaves(Obj(Merged(english, target, prefix).entries)) == Leaves(target) + Merged(english, target, prefix).added
    decreases english, 1
  {
    MergeCountsLeavesUpTo(english, target, prefix, Size(english));
  }

  // ---------------------------------------------------------------------------
  // Merging twice

  lemma {:induction false} MergeChildIdempotent(value: Json, existing: Option<Json>, path: string)
    requires WellFormed(value) && IsObject(value)
    requires existing.None? || IsObject(existing.value)
    ensures var c := MergeChild(value, existing, path).0;
            c.Obj? && Merged(value, c, path) == Merge(c.entries, 0)
    decreases value, 2
  {
    match existing
    case None => MergeIdempotent(value, Obj([]), path);
    case Some(prev) => MergeIdempotent(value, prev, path);
  }

  /** An entry whose key already holds what merging would assign changes nothing. */
  lemma MergeEntryStable(english: Json, prefix: string, i: nat, r: seq<(string, Json)>, c: Json)
    requires IsObject(english) && i < Size(english)
    requires Lookup(r, KeyAt(english, i)) == Some(c)
    requires IsObject(ValueAt(english, i)) && IsObject(c) ==>
               c.Obj? && Merged(ValueAt(english, i), c, KeyPath(prefix, KeyAt(english, i))) == Merge(c.entries, 0)
    ensures MergeEntry(english, prefix, i, Merge(r, 0)) == Merge(r, 0)
  {
    if IsObject(ValueAt(english, i)) && IsObject(c) {
      PutSame(r, KeyAt(english, i), c);
    }
  }

  lemma {:induction false} MergeIdempotentUpTo(english: Json, target: Json, prefix: string, n: nat)
    requires IsObject(english) && IsObject(target) && WellFormed(english) && n <= Size(english)
    ensures MergedUpTo(english, Obj(Merged(english, target, prefix).entries), prefix, n)
         == Merge(Merged(english, target, prefix).entries, 0)
    decreases english, 0, n
  {
    var r := Merged(english, target, prefix).entries;
    if n > 0 {
      MergeIdempotentUpTo(english, target, prefix, n - 1);
      var i := n - 1;
      var key := KeyAt(english, i);
      var value := ValueAt(english, i);
      var existing := Lookup(EntriesOf(target), key);
      var path := KeyPath(prefix, key);
      MergeAt(english, target, prefix, i);
      var c := MergeChild(value, existing, path).0;
      if IsObject(value) && IsObject(c) {
        EntriesOfWellFormed(english);
        MergeChildCases(value, existing, path);
        MergeChildIdempotent(value, existing, path);
      }
      MergeEntryStable(english, prefix, i, r, c);
    }
  }

  /** Merging English into an already merged locale adds nothing and returns it
      unchanged. */
  lemma MergeIdempotent(english: Json, target: Json, prefix: string)
    requires IsObject(english) && IsObject(target) && WellFormed(english)
    ensures Merged(english, Obj(Merged(english, target, prefix).entries), prefix)
         == Merge(Merged(english, target, prefix).entries, 0)
    decreases english, 1
  {
    MergeIdempotentUpTo(english, target, prefix, Size(english));
  }

  // ---------------------------------------------------------------------------
  // updateLanguages

  /** The new content of a locale file, when the merge added something; the file
      is left alone otherwise. */
  function UpdatedLocale(english: Json, existing: Json): (r: Option<Json>)
    requires IsObject(english) && IsObject(existing)
    ensures r.Some? <==> Merged(english, existing, "").added > 0
  {
    var m := Merged(english, existing, "");
    if m.added > 0 then Some(Obj(m.entries)) else None
  }

  /** Once updated, a locale file is not rewritten by the next run. */
  lemma UpdateOnce(english: Json, existing: Json)
    requires IsObject(english) && IsObject(existing) && WellFormed(english)
    ensures UpdatedLocale(english, Obj(Merged(english, existing, "").entries)).None?
  {
    MergeIdempotent(english, existing, "");
  }

  /** What the script goes on to do once it has read the directory. */
  datatype Selection =
    | Update(files: seq<string>)
    | LanguageNotFound(available: seq<string>)
    | NothingToUpdate

  function SelectLocales(directory: seq<string>, language: Option<string>): (r: Selection)
    ensures r.Update? <==> |LocaleFiles(directory, language)| > 0
    ensures r.Update? ==> r.files == LocaleFiles(directory, language)
    ensures r.LanguageNotFound? <==> |LocaleFiles(directory, language)| == 0 && Requested(language)
    ensures r.LanguageNotFound? ==> |r.available| == |LocaleFiles(directory, None)|
    ensures r.LanguageNotFound? ==>
      forall i :: 0 <= i < |r.available| ==> r.available[i] == LanguageOf(LocaleFiles(directory, None)[i])
  {
    var files := LocaleFiles(directory, language);
    if |files| > 0 then Update(files)
    else if Requested(language) then
      var all := LocaleFiles(directory, None);
      LanguageNotFound(seq(|all|, i requires 0 <= i < |all| => LanguageOf(all[i])))
    else NothingToUpdate
  }

  /** The files a run writes, given each selected locale's code and content, in
      the order the script visits them. */
  function Writes(english: Json, locales: seq<(string, Json)>): (r: seq<(string, Json)>)
    requires IsObject(english) && forall i :: 0 <= i < |locales| ==> IsObject(locales[i].1)
    ensures |r| <= |locales|
  {
    if |locales| == 0 then []
    else
      var last := locales[|locales| - 1];
      Writes(english, locales[..|locales| - 1])
      + (match UpdatedLocale(english, last.1) case Some(content) => [(last.0, content)] case None => [])
  }

  /** The loop of `updateLanguages` over the selected locales: merge, write when
      something was added, and count the files written. */
  method UpdateLocales(english: Json, locales: seq<(string, Json)>)
    returns (written: seq<(string, Json)>, totalUpdated: nat)
    requires IsObject(english) && forall i :: 0 <= i < |locales| ==> IsObject(locales[i].1)
    ensures written == Writes(english, locales)
    ensures totalUpdated == |written|
  {
    written, totalUpdated := [], 0;
    var i := 0;
    while i < |locales|
      invariant i <= |locales|
      invariant written == Writes(english, locales[..i]) && totalUpdated == |written|
    {
      var updated, addedCount := MergeTranslations(english, locales[i].1, "");
      assert locales[..i + 1][..i] == locales[..i];
      if addedCount > 0 {
        written := written + [(locales[i].0, updated)];
        totalUpdated := totalUpdated + 1;
      }
      i := i + 1;
    }
    assert locales[..i] == locales;
  }

  /** The locale files after a run: a file the merge added something to holds
      the merged tree, every other file keeps its content. */
  function AfterRun(english: Json, locales: seq<(string, Json)>): (r: seq<(string, Json)>)
    requires IsObject(english) && forall i :: 0 <= i < |locales| ==> IsObject(locales[i].1)
    ensures |r| == |locales| && forall i :: 0 <= i < |r| ==> r[i].0 == locales[i].0 && IsObject(r[i].1)
    ensures forall i :: 0 <= i < |r| ==>
      r[i].1 == if Merged(english, locales[i].1, "").added > 0 then Obj(Merged(english, locales[i].1, "").entries)
                else locales[i].1
  {
    seq(|locales|, i requires 0 <= i < |locales| => (locales[i].0, UpdatedLocale(english, locales[i].1).GetOr(locales[i].1)))
  }

  /** Running the script a second time writes no file. */
  lemma {:induction false} SecondRunWritesNothing(english: Json, locales: seq<(string, Json)>)
    requires IsObject(english) && WellFormed(english) && forall i :: 0 <= i < |locales| ==> IsObject(locales[i].1)
    ensures Writes(english, AfterRun(english, locales)) == []
  {
    if |locales| > 0 {
      var init := locales[..|locales| - 1];
      SecondRunWritesNothing(english, init);
      assert AfterRun(english, locales)[..|locales| - 1] == AfterRun(english, init);
      var last := locales[|locales| - 1].1;
      if UpdatedLocale(english, last).Some? {
        UpdateOnce(english, last);
      }
    }
  }
}
