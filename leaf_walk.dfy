/**
 * The walk both AI scripts make over a locale tree: visit the entries of an
 * object or array in `Object.entries` order, build the key path of each,
 * rewrite string leaves, recurse into nested objects and arrays, and copy
 * every other value. What happens to one string is a parameter: given the
 * string and its key path it yields the new text, or `None` to keep the string.
 * The result of walking an object or an array is an object with the same keys.
 */
module LeafWalk {
  import opened Wrappers
  import opened Json
  import opened ListLanguages

  /** What the walk does to one string leaf, given the string and its key path. */
  type Rewrite = (string, string) -> Option<string>

  /** The new value at key path `path`. */
  function WalkedValue(v: Json, f: Rewrite, path: string): Json
    decreases v, 2
  {
    if v.Str? then (match f(v.s, path) case Some(t) => Str(t) case None => v)
    else if IsObject(v) then Walked(v, f, path)
    else v
  }

  /** The object the walk builds from `j`: entry `i` keeps its key and carries the
      walked value. */
  function Walked(j: Json, f: Rewrite, prefix: string): (r: Json)
    requires IsObject(j)
    ensures r.Obj? && |r.entries| == Size(j)
    ensures forall i :: 0 <= i < Size(j) ==> r.entries[i] == WalkedEntry(j, f, prefix, i)
    decreases j, 1
  {
    Obj(seq(Size(j), i requires 0 <= i < Size(j) => WalkedEntry(j, f, prefix, i)))
  }

  function WalkedEntry(j: Json, f: Rewrite, prefix: string, i: nat): (e: (string, Json))
    requires i < Size(j)
    ensures e.0 == KeyAt(j, i)
    decreases j, 0
  {
    (KeyAt(j, i), WalkedValue(ValueAt(j, i), f, KeyPath(prefix, KeyAt(j, i))))
  }

  /** How many string leaves the walk rewrites. */
  function RewrittenValue(v: Json, f: Rewrite, path: string): nat
    decreases v, 3
  {
    if v.Str? then (if f(v.s, path).Some? then 1 else 0)
    else if IsObject(v) then Rewritten(v, f, path)
    else 0
  }

  function Rewritten(j: Json, f: Rewrite, prefix: string): nat
    requires IsObject(j)
    decreases j, 2
  {
    RewrittenUpTo(j, f, prefix, Size(j))
  }

  /** The rewrites under the first `n` entries. */
  function RewrittenUpTo(j: Json, f: Rewrite, prefix: string, n: nat): nat
    requires IsObject(j) && n <= Size(j)
    decreases j, 1, n
  {
    if n == 0 then 0 else RewrittenUpTo(j, f, prefix, n - 1) + RewrittenEntry(j, f, prefix, n - 1)
  }

  function RewrittenEntry(j: Json, f: Rewrite, prefix: string, i: nat): nat
    requires i < Size(j)
    decreases j, 0
  {
    RewrittenValue(ValueAt(j, i), f, KeyPath(prefix, KeyAt(j, i)))
  }

  /** The walk sends strings to strings and objects and arrays to objects, so the
      result has exactly as many string leaves as the input. */
  lemma {:induction false} WalkKeepsStringLeaves(v: Json, f: Rewrite, path: string)
    ensures StringLeaves(WalkedValue(v, f, path)) == StringLeaves(v)
    decreases v, 1
  {
    if IsObject(v) {
      WalkKeepsStringLeavesUpTo(v, f, path, Size(v));
    }
  }

  lemma {:induction false} WalkKeepsStringLeavesUpTo(j: Json, f: Rewrite, prefix: string, n: nat)
    requires IsObject(j) && n <= Size(j)
    ensures StringLeavesUpTo(Walked(j, f, prefix), n) == StringLeavesUpTo(j, n)
    decreases j, 0, n
  {
    if n > 0 {
      WalkKeepsStringLeavesUpTo(j, f, prefix, n - 1);
      WalkKeepsStringLeaves(ValueAt(j, n - 1), f, KeyPath(prefix, KeyAt(j, n - 1)));
    }
  }

  /** At most every string leaf is rewritten, and all of them are when the rewrite
      never keeps a string. */
  lemma {:induction false} RewrittenAtMostLeaves(v: Json, f: Rewrite, path: string)
    ensures RewrittenValue(v, f, path) <= StringLeaves(v)
    ensures (forall s, p :: f(s, p).Some?) ==> RewrittenValue(v, f, path) == StringLeaves(v)
    decreases v, 1
  {
    if IsObject(v) {
      RewrittenAtMostLeavesUpTo(v, f, path, Size(v));
    }
  }

  lemma {:induction false} RewrittenAtMostLeavesUpTo(j: Json, f: Rewrite, prefix: string, n: nat)
    requires IsObject(j) && n <= Size(j)
    ensures RewrittenUpTo(j, f, prefix, n) <= StringLeavesUpTo(j, n)
    ensures (forall s, p :: f(s, p).Some?) ==> RewrittenUpTo(j, f, prefix, n) == StringLeavesUpTo(j, n)
    decreases j, 0, n
  {
    if n > 0 {
      RewrittenAtMostLeavesUpTo(j, f, prefix, n - 1);
      RewrittenAtMostLeaves(ValueAt(j, n - 1), f, KeyPath(prefix, KeyAt(j, n - 1)));
    }
  }

  /** A rewrite that keeps every string leaves the leaves alone: nothing is
      counted. */
  lemma {:induction false} NothingRewritten(v: Json, f: Rewrite, path: string)
    requires forall s, p :: f(s, p).None?
    ensures RewrittenValue(v, f, path) == 0
    decreases v, 1
  {
    if IsObject(v) {
      NothingRewrittenUpTo(v, f, path, Size(v));
    }
  }

  lemma {:induction false} NothingRewrittenUpTo(j: Json, f: Rewrite, prefix: string, n: nat)
    requires IsObject(j) && n <= Size(j)
    requires forall s, p :: f(s, p).None?
    ensures RewrittenUpTo(j, f, prefix, n) == 0
    decreases j, 0, n
  {
    if n > 0 {
      NothingRewrittenUpTo(j, f, prefix, n - 1);
      NothingRewritten(ValueAt(j, n - 1), f, KeyPath(prefix, KeyAt(j, n - 1)));
    }
  }

  /** The walked tree is again what `JSON.parse` could return. */
  lemma {:induction false} WalkWellFormed(v: Json, f: Rewrite, path: string)
    requires WellFormed(v)
    ensures WellFormed(WalkedValue(v, f, path))
    decreases v, 1
  {
    if IsObject(v) {
      var r := Walked(v, f, path);
      EntriesOfWellFormed(v);
      forall i | 0 <= i < Size(v)
        ensures WellFormed(r.entries[i].1)
      {
        WalkWellFormed(ValueAt(v, i), f, KeyPath(path, KeyAt(v, i)));
      }
      assert forall p :: 0 <= p < Size(v) ==> r.entries[p].0 == EntriesOf(v)[p].0;
    }
  }

  /** Filling a fresh object `{}` entry by entry: after `i` entries it holds the
      first `i` walked entries, and assigning the next key appends the next one. */
  lemma FreshStep(j: Json, f: Rewrite, prefix: string, i: nat, v: Json)
    requires IsObject(j) && WellFormed(j) && i < Size(j)
    requires WalkedEntry(j, f, prefix, i) == (KeyAt(j, i), v)
    ensures Put(Walked(j, f, prefix).entries[..i], KeyAt(j, i), v) == Walked(j, f, prefix).entries[..i + 1]
  {
    var w := Walked(j, f, prefix).entries;
    PutOnFresh(j, w[..i], i, v);
    assert w[..i] + [(KeyAt(j, i), v)] == w[..i + 1];
  }
}
