/**
 * JSON values as `JSON.parse` produces them for the locale files, and the
 * JavaScript object operations the locale scripts apply to them: `typeof v ===
 * 'object' && v !== null`, `Object.entries`, own-property lookup, assignment
 * to a key, and the dotted key paths the scripts build for messages.
 *
 * An object is the sequence of its entries in `Object.entries` order. An array
 * seen through `Object.entries` has the keys "0", "1", ... .
 */
module Json {
  import opened Wrappers
  import opened Strings

  datatype Json =
    | Str(s: string)
    | Num(n: real)
    | Bool(b: bool)
    | Null
    | Arr(items: seq<Json>)
    | Obj(entries: seq<(string, Json)>)

  /** `typeof v === 'object' && v !== null`: true of arrays and objects. */
  predicate IsObject(j: Json) {
    j.Obj? || j.Arr?
  }

  /** The number of entries `Object.entries(j)` yields for an object or array. */
  function Size(j: Json): nat {
    match j
    case Obj(es) => |es|
    case Arr(items) => |items|
    case _ => 0
  }

  /** The key of the `i`-th entry of `Object.entries(j)`. */
  function KeyAt(j: Json, i: nat): string
    requires i < Size(j)
  {
    if j.Obj? then j.entries[i].0 else NatToString(i)
  }

  /** The value of the `i`-th entry of `Object.entries(j)`. */
  function ValueAt(j: Json, i: nat): Json
    requires i < Size(j)
  {
    if j.Obj? then j.entries[i].1 else j.items[i]
  }

  /** `Object.entries(j)`, which is also what `{ ...j }` copies into a fresh object. */
  function EntriesOf(j: Json): (es: seq<(string, Json)>)
    ensures |es| == Size(j)
    ensures forall i :: 0 <= i < |es| ==> es[i] == (KeyAt(j, i), ValueAt(j, i))
  {
    match j
    case Obj(entries) => entries
    case Arr(items) => seq(|items|, i requires 0 <= i < |items| => (NatToString(i), items[i]))
    case _ => []
  }

  /** The keys of a list of entries, in order. */
  function KeysOf(es: seq<(string, Json)>): (ks: seq<string>)
    ensures |ks| == |es| && forall i :: 0 <= i < |es| ==> ks[i] == es[i].0
  {
    if |es| == 0 then [] else [es[0].0] + KeysOf(es[1..])
  }

  /** `obj[key]` on a plain object built from entries: the value of the first entry
      with the key. */
  function Lookup(es: seq<(string, Json)>, k: string): Option<Json> {
    if |es| == 0 then None
    else if es[0].0 == k then Some(es[0].1)
    else Lookup(es[1..], k)
  }

  /** A key reads back a value exactly when some entry has it. */
  lemma {:induction false} LookupKeys(es: seq<(string, Json)>, k: string)
    ensures Lookup(es, k).Some? <==> k in KeysOf(es)
  {
    if |es| > 0 {
      LookupKeys(es[1..], k);
      assert KeysOf(es) == [es[0].0] + KeysOf(es[1..]);
    }
  }

  /** `obj[key] = v`: an existing key keeps its position and takes the new value;
      a new key is appended. */
  function Put(es: seq<(string, Json)>, k: string, v: Json): (r: seq<(string, Json)>)
    ensures |r| == |es| || r == es + [(k, v)]
  {
    if |es| == 0 then [(k, v)]
    else if es[0].0 == k then [(k, v)] + es[1..]
    else [es[0]] + Put(es[1..], k, v)
  }

  /** After `obj[key] = v` the key reads back `v` and every other key reads back
      what it did before. */
  lemma {:induction false} PutLookup(es: seq<(string, Json)>, k: string, v: Json)
    ensures Lookup(Put(es, k, v), k) == Some(v)
    ensures forall k' :: k' != k ==> Lookup(Put(es, k, v), k') == Lookup(es, k')
  {
    if |es| > 0 && es[0].0 != k {
      var tail := es[1..];
      PutLookup(tail, k, v);
      var r := Put(es, k, v);
      assert r[0] == es[0] && r[1..] == Put(tail, k, v);
      forall k' | k' != k
        ensures Lookup(r, k') == Lookup(es, k')
      {
        if es[0].0 != k' {
          assert Lookup(r, k') == Lookup(r[1..], k');
          assert Lookup(es, k') == Lookup(tail, k');
        }
      }
    } else if |es| > 0 {
      var r := Put(es, k, v);
      assert r[1..] == es[1..];
      forall k' | k' != k
        ensures Lookup(r, k') == Lookup(es, k')
      {
        assert Lookup(r, k') == Lookup(r[1..], k');
      }
    }
  }

  /** Assigning an existing key keeps the key list; assigning a new one appends. */
  lemma {:induction false} PutKeys(es: seq<(string, Json)>, k: string, v: Json)
    ensures k in KeysOf(es) ==> KeysOf(Put(es, k, v)) == KeysOf(es)
    ensures k !in KeysOf(es) ==> Put(es, k, v) == es + [(k, v)]
  {
    if |es| > 0 && es[0].0 != k {
      var tail := es[1..];
      PutKeys(tail, k, v);
      var r := Put(es, k, v);
      assert r[0] == es[0] && r[1..] == Put(tail, k, v);
      assert KeysOf(es) == [es[0].0] + KeysOf(tail);
      assert KeysOf(r) == [es[0].0] + KeysOf(r[1..]);
      assert es == [es[0]] + tail;
    } else if |es| > 0 {
      var r := Put(es, k, v);
      assert r[1..] == es[1..];
      assert KeysOf(es) == [k] + KeysOf(es[1..]);
      assert KeysOf(r) == [k] + KeysOf(r[1..]);
    }
  }

  /** Assigning a key the value it already reads back changes nothing. */
  lemma {:induction false} PutSame(es: seq<(string, Json)>, k: string, v: Json)
    requires Lookup(es, k) == Some(v)
    ensures Put(es, k, v) == es
  {
    if es[0].0 != k {
      PutSame(es[1..], k, v);
    }
  }

  /** The position of the first entry with key `k`: the one `obj[k]` reads. */
  function KeyIndex(es: seq<(string, Json)>, k: string): (i: nat)
    requires Lookup(es, k).Some?
    ensures i < |es| && es[i] == (k, Lookup(es, k).value)
  {
    if es[0].0 == k then 0 else KeyIndex(es[1..], k) + 1
  }

  /** Assigning a key that is present replaces the entry it reads. */
  lemma {:induction false} PutReplaces(es: seq<(string, Json)>, k: string, v: Json)
    requires Lookup(es, k).Some?
    ensures Put(es, k, v) == es[KeyIndex(es, k) := (k, v)]
  {
    if es[0].0 != k {
      var rest := es[1..];
      PutReplaces(rest, k, v);
      ConsUpdate(es[0], rest, KeyIndex(rest, k), (k, v));
      assert es == [es[0]] + rest;
    }
  }

  lemma ConsUpdate<T>(x: T, rest: seq<T>, j: nat, e: T)
    requires j < |rest|
    ensures [x] + rest[j := e] == ([x] + rest)[j + 1 := e]
  {
  }

  /** No key occurs twice. */
  predicate DistinctKeys(es: seq<(string, Json)>) {
    forall p, q :: 0 <= p < q < |es| ==> es[p].0 != es[q].0
  }

  /** What `JSON.parse` guarantees: at every level an object has each key once. */
  predicate WellFormed(j: Json) {
    match j
    case Obj(es) => DistinctKeys(es) && forall i :: 0 <= i < |es| ==> WellFormed(es[i].1)
    case Arr(items) => forall i :: 0 <= i < |items| ==> WellFormed(items[i])
    case _ => true
  }

  /** The entries of a well-formed object or array have distinct keys (array
      indices render as distinct strings) and well-formed values. */
  lemma EntriesOfWellFormed(j: Json)
    requires WellFormed(j)
    ensures DistinctKeys(EntriesOf(j))
    ensures forall i :: 0 <= i < Size(j) ==> WellFormed(ValueAt(j, i))
  {
    if j.Arr? {
      forall p, q | 0 <= p < q < Size(j)
        ensures EntriesOf(j)[p].0 != EntriesOf(j)[q].0
      {
        NatToStringInjective(p, q);
      }
    }
  }

  /** With distinct keys, assigning to the key of entry `i` updates entry `i`. */
  lemma {:induction false} PutAtDistinct(es: seq<(string, Json)>, i: nat, v: Json)
    requires DistinctKeys(es) && i < |es|
    ensures Put(es, es[i].0, v) == es[i := (es[i].0, v)]
  {
    if i > 0 {
      var tail := es[1..];
      assert tail[i - 1] == es[i];
      PutAtDistinct(tail, i - 1, v);
      assert es == [es[0]] + tail;
    }
  }

  /** On a copy of the entries of a well-formed object or array, whose keys are
      still those of the original, `copy[key] = v` for the key of entry `i`
      updates entry `i`. */
  lemma PutOnCopy(j: Json, copy: seq<(string, Json)>, i: nat, v: Json)
    requires WellFormed(j) && i < Size(j) && |copy| == Size(j)
    requires forall p :: 0 <= p < |copy| ==> copy[p].0 == KeyAt(j, p)
    ensures Put(copy, KeyAt(j, i), v) == copy[i := (KeyAt(j, i), v)]
  {
    EntriesOfWellFormed(j);
    assert DistinctKeys(copy) by {
      assert forall p :: 0 <= p < |copy| ==> copy[p].0 == EntriesOf(j)[p].0;
    }
    PutAtDistinct(copy, i, v);
  }

  /** Rewriting a copy of `Object.entries(j)` in place towards `target`, an entry
      list with the same keys: after `i` entries the first `i` are those of
      `target` and the rest are still the originals. */
  ghost predicate CopiedUpTo(j: Json, target: seq<(string, Json)>, entries: seq<(string, Json)>, i: nat) {
    i <= Size(j) && |entries| == Size(j) && |target| == Size(j)
    && (forall p :: 0 <= p < i ==> entries[p] == target[p])
    && (forall p :: i <= p < Size(j) ==> entries[p] == EntriesOf(j)[p])
  }

  lemma CopyStart(j: Json, target: seq<(string, Json)>)
    requires |target| == Size(j)
    ensures CopiedUpTo(j, target, EntriesOf(j), 0)
  {
  }

  /** Entry `i` of the copy is either left alone, when the target keeps the
      original value, or assigned under its key, which replaces it in place. */
  lemma CopyStep(j: Json, target: seq<(string, Json)>, entries: seq<(string, Json)>, i: nat, v: Json, written: bool)
    requires WellFormed(j) && i < Size(j) && CopiedUpTo(j, target, entries, i)
    requires forall p :: 0 <= p < |target| ==> target[p].0 == KeyAt(j, p)
    requires target[i] == (KeyAt(j, i), v)
    requires !written ==> v == ValueAt(j, i)
    ensures CopiedUpTo(j, target, if written then Put(entries, KeyAt(j, i), v) else entries, i + 1)
  {
    if written {
      assert forall p :: 0 <= p < |entries| ==> entries[p].0 == KeyAt(j, p) by {
        forall p | 0 <= p < |entries|
          ensures entries[p].0 == KeyAt(j, p)
        {
          if p < i {
            assert entries[p] == target[p];
          } else {
            assert entries[p] == EntriesOf(j)[p];
          }
        }
      }
      PutOnCopy(j, entries, i, v);
      var next := entries[i := (KeyAt(j, i), v)];
      assert forall p :: 0 <= p < i + 1 ==> next[p] == target[p];
      assert forall p :: i + 1 <= p < Size(j) ==> next[p] == EntriesOf(j)[p];
    } else {
      assert entries[i] == EntriesOf(j)[i] == target[i];
    }
  }

  lemma CopyDone(j: Json, target: seq<(string, Json)>, entries: seq<(string, Json)>)
    requires CopiedUpTo(j, target, entries, Size(j))
    ensures entries == target
  {
  }

  /** Assigning a key no entry has appends it. */
  lemma {:induction false} PutNewKey(es: seq<(string, Json)>, k: string, v: Json)
    requires forall p :: 0 <= p < |es| ==> es[p].0 != k
    ensures Put(es, k, v) == es + [(k, v)]
  {
    if |es| > 0 {
      PutNewKey(es[1..], k, v);
      assert es == [es[0]] + es[1..];
    }
  }

  /** Filling a fresh object `{}` with the entries of a well-formed object or array
      in order: once the first `i` keys are in, `built[key] = v` for key `i`
      appends. */
  lemma PutOnFresh(j: Json, built: seq<(string, Json)>, i: nat, v: Json)
    requires WellFormed(j) && i < Size(j) && |built| == i
    requires forall p :: 0 <= p < i ==> built[p].0 == KeyAt(j, p)
    ensures Put(built, KeyAt(j, i), v) == built + [(KeyAt(j, i), v)]
  {
    EntriesOfWellFormed(j);
    forall p | 0 <= p < i
      ensures built[p].0 != KeyAt(j, i)
    {
      assert EntriesOf(j)[p].0 != EntriesOf(j)[i].0;
    }
    PutNewKey(built, KeyAt(j, i), v);
  }

  /** The array index an own-property key names: "0", "1", ... in canonical decimal. */
  function IndexKey(k: string, n: nat): (r: Option<nat>)
    ensures r.Some? ==> r.value < n && NatToString(r.value) == k
  {
    if |k| > 0 && (forall i :: 0 <= i < |k| ==> '0' <= k[i] <= '9') then
      var v := DigitsValue(k);
      if v < n && NatToString(v) == k then Some(v) else None
    else None
  }

  lemma IndexKeyOfIndex(i: nat, n: nat)
    requires i < n
    ensures IndexKey(NatToString(i), n) == Some(i)
  {
    NatToStringRoundTrip(i);
  }

  /** `obj[key]` restricted to own properties (`hasOwnProperty`): the entry of an
      object; for an array its element at a canonical index, or its `length`. */
  function Get(j: Json, k: string): (r: Option<Json>)
    ensures !IsObject(j) ==> r.None?
    ensures j.Obj? ==> r == Lookup(j.entries, k)
  {
    match j
    case Obj(es) => Lookup(es, k)
    case Arr(items) =>
      if k == "length" then Some(Num(|items| as real))
      else (match IndexKey(k, |items|)
        case None => None
        case Some(i) => Some(items[i]))
    case _ => None
  }

  /** Element `i` of an array is its own property under the decimal rendering of `i`. */
  lemma GetIndex(items: seq<Json>, i: nat)
    requires i < |items|
    ensures Get(Arr(items), NatToString(i)) == Some(items[i])
  {
    IndexKeyOfIndex(i, |items|);
    assert NatToString(i)[0] != "length"[0];
  }

  /** The dotted path the scripts print and pass along: `key` at the top level,
      `prefix.key` below it. */
  function KeyPath(prefix: string, key: string): string {
    if prefix == "" then key else prefix + "." + key
  }
}
