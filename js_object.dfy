/**
  A plain JavaScript object whose own keys and values are strings, seen as the
  ordered list of its entries (what `Object.entries` returns), together with the
  two operations util/main.js applies to such objects: property assignment
  `o[k] = v` and `Object.fromEntries`.
*/
module JsObject {
  import opened Results

  type Entry = (string, string)

  /** The own entries of an object, in insertion order. */
  type Object = seq<Entry>

  function Keys(o: Object): seq<string> {
    seq(|o|, i requires 0 <= i < |o| => o[i].0)
  }

  function Values(o: Object): seq<string> {
    seq(|o|, i requires 0 <= i < |o| => o[i].1)
  }

  predicate Distinct<T(==)>(ks: seq<T>) {
    forall i, j :: 0 <= i < j < |ks| ==> ks[i] != ks[j]
  }

  /** An object never holds two entries with the same key. */
  predicate DistinctKeys(o: Object) {
    Distinct(Keys(o))
  }

  /** Property read `o[k]`; None stands for `undefined`. */
  function Get(o: Object, k: string): Option<string>
    decreases |o|
  {
    if o == [] then None
    else if o[0].0 == k then Some(o[0].1)
    else Get(o[1..], k)
  }

  /** A read finds a value exactly when the key is present, and the value is one stored under that key. */
  lemma {:induction false} GetFinds(o: Object, k: string)
    ensures Get(o, k).Some? <==> k in Keys(o)
    ensures Get(o, k).Some? ==> exists i :: 0 <= i < |o| && o[i] == (k, Get(o, k).value)
    decreases |o|
  {
    if o != [] {
      assert Keys(o) == [o[0].0] + Keys(o[1..]);
      if o[0].0 != k {
        GetFinds(o[1..], k);
        var r := Get(o[1..], k);
        if r.Some? {
          var i :| 0 <= i < |o[1..]| && o[1..][i] == (k, r.value);
          assert o[i + 1] == (k, r.value);
        }
      }
    }
  }

  /** Property assignment `o[k] = v`: an existing key keeps its position, a new key goes last. */
  function Set(o: Object, k: string, v: string): (r: Object)
    ensures k in Keys(o) ==> Keys(r) == Keys(o)
    ensures k !in Keys(o) ==> r == o + [(k, v)]
  {
    if o == [] then [(k, v)]
    else
      assert Keys(o) == [o[0].0] + Keys(o[1..]);
      if o[0].0 == k then
        var r := [(k, v)] + o[1..];
        assert Keys(r) == [k] + Keys(o[1..]);
        r
      else
        var t := Set(o[1..], k, v);
        var r := [o[0]] + t;
        assert Keys(r) == [o[0].0] + Keys(t);
        assert k !in Keys(o) ==> r == o + [(k, v)];
        r
  }

  /** After `o[k] = v`, reading k gives v and reading any other key is unchanged. */
  lemma {:induction false} SetGet(o: Object, k: string, v: string, k': string)
    ensures Get(Set(o, k, v), k') == if k' == k then Some(v) else Get(o, k')
  {
    if o != [] && o[0].0 != k {
      SetGet(o[1..], k, v, k');
    }
  }

  /** Applies `o[k] = v` for every entry, left to right. */
  function AssignAll(o: Object, entries: seq<Entry>): Object
    decreases |entries|
  {
    if entries == [] then o
    else AssignAll(Set(o, entries[0].0, entries[0].1), entries[1..])
  }

  /** `Object.fromEntries(entries)`. */
  function FromEntries(entries: seq<Entry>): Object {
    AssignAll([], entries)
  }

  /** The value of the last entry with key k, the one `Object.fromEntries` keeps. */
  function LastValue(entries: seq<Entry>, k: string): Option<string>
    decreases |entries|
  {
    if entries == [] then None
    else if entries[|entries| - 1].0 == k then Some(entries[|entries| - 1].1)
    else LastValue(entries[..|entries| - 1], k)
  }

  lemma {:induction false} SetKeepsDistinct(o: Object, k: string, v: string)
    requires DistinctKeys(o)
    ensures DistinctKeys(Set(o, k, v))
  {
    if k !in Keys(o) {
      assert Keys(o + [(k, v)]) == Keys(o) + [k];
    }
  }

  lemma {:induction false} AssignAllKeepsDistinct(o: Object, entries: seq<Entry>)
    requires DistinctKeys(o)
    ensures DistinctKeys(AssignAll(o, entries))
    decreases |entries|
  {
    if entries != [] {
      SetKeepsDistinct(o, entries[0].0, entries[0].1);
      AssignAllKeepsDistinct(Set(o, entries[0].0, entries[0].1), entries[1..]);
    }
  }

  /** Whatever the entries, the object built from them has no duplicate key. */
  lemma FromEntriesDistinct(entries: seq<Entry>)
    ensures DistinctKeys(FromEntries(entries))
  {
    AssignAllKeepsDistinct([], entries);
  }

  lemma {:induction false} AssignAllOfFresh(o: Object, entries: seq<Entry>)
    requires DistinctKeys(o + entries)
    ensures AssignAll(o, entries) == o + entries
    decreases |entries|
  {
    if entries != [] {
      var e := entries[0];
      assert Keys(o + entries) == Keys(o) + Keys(entries);
      assert e.0 == Keys(o + entries)[|o|];
      assert e.0 !in Keys(o) by {
        forall i | 0 <= i < |o| ensures Keys(o)[i] != e.0 {
          assert Keys(o)[i] == Keys(o + entries)[i];
        }
      }
      assert (o + [e]) + entries[1..] == o + entries;
      AssignAllOfFresh(o + [e], entries[1..]);
    }
  }

  /** With pairwise distinct keys, `Object.fromEntries` keeps every entry, in order. */
  lemma FromEntriesOfDistinct(entries: seq<Entry>)
    requires DistinctKeys(entries)
    ensures FromEntries(entries) == entries
  {
    assert [] + entries == entries;
    AssignAllOfFresh([], entries);
  }

  lemma {:induction false} AssignAllGet(o: Object, entries: seq<Entry>, k: string)
    ensures Get(AssignAll(o, entries), k) == if LastValue(entries, k).Some? then LastValue(entries, k) else Get(o, k)
    decreases |entries|
  {
    if entries != [] {
      var e := entries[0];
      AssignAllGet(Set(o, e.0, e.1), entries[1..], k);
      SetGet(o, e.0, e.1, k);
      LastValueCons(e, entries[1..], k);
      assert [e] + entries[1..] == entries;
    }
  }

  lemma {:induction false} LastValueCons(e: Entry, rest: seq<Entry>, k: string)
    ensures LastValue([e] + rest, k) == if LastValue(rest, k).Some? then LastValue(rest, k) else if e.0 == k then Some(e.1) else None
    decreases |rest|
  {
    if rest != [] {
      var n := |rest|;
      assert ([e] + rest)[..n] == [e] + rest[..n - 1];
      LastValueCons(e, rest[..n - 1], k);
    }
  }

  /** Reading key k of `Object.fromEntries(entries)` gives the value of the last entry with key k. */
  lemma FromEntriesGet(entries: seq<Entry>, k: string)
    ensures Get(FromEntries(entries), k) == LastValue(entries, k)
  {
    AssignAllGet([], entries, k);
  }

  /** In an object, the value at a key's position is what reading that key gives. */
  lemma {:induction false} GetAt(o: Object, i: nat)
    requires DistinctKeys(o) && i < |o|
    ensures Get(o, o[i].0) == Some(o[i].1)
  {
    if i > 0 {
      assert Keys(o)[0] != Keys(o)[i];
      assert DistinctKeys(o[1..]) by {
        forall a, b | 0 <= a < b < |o[1..]| ensures Keys(o[1..])[a] != Keys(o[1..])[b] {
          assert Keys(o)[a + 1] != Keys(o)[b + 1];
        }
      }
      GetAt(o[1..], i - 1);
    }
  }
}
