/**
 * Python's `dict`: a finite map that also remembers the order in which its
 * keys were first stored. Rows, the validator's column types and the report's
 * per-method tallies are all dictionaries whose key order is observable.
 */
module Dicts {

  datatype DictRep<K, V> = DictRep(keys: seq<K>, entries: map<K, V>)

  predicate Distinct<K(==)>(s: seq<K>) {
    forall i, j :: 0 <= i < j < |s| ==> s[i] != s[j]
  }

  /** The first position of `x` in `s`, or `|s|` when `x` does not occur. */
  function Position<K(==)>(s: seq<K>, x: K): (p: nat)
    ensures p <= |s|
    ensures p < |s| <==> x in s
    ensures p < |s| ==> s[p] == x
    ensures forall j :: 0 <= j < p ==> s[j] != x
  {
    if s == [] then 0
    else if s[0] == x then 0
    else 1 + Position(s[1..], x)
  }

  /** In a sequence without repeats, each element sits at its own position. */
  lemma PositionDistinct<K>(s: seq<K>, i: nat)
    requires Distinct(s) && i < |s|
    ensures Position(s, s[i]) == i
  {
  }

  /** An element of the first `n` elements has a position below `n`. */
  lemma PositionBefore<K>(s: seq<K>, n: nat, x: K)
    requires n <= |s| && x in s[..n]
    ensures Position(s, x) < n
  {
    var m :| 0 <= m < n && s[..n][m] == x;
    assert s[m] == x;
  }

  /** `keys` lists every key of `entries` exactly once. */
  predicate WellFormed<K(==), V>(d: DictRep<K, V>) {
    && Distinct(d.keys)
    && (forall k :: k in d.entries ==> k in d.keys)
    && (forall i :: 0 <= i < |d.keys| ==> d.keys[i] in d.entries)
  }

  /**
   * A dictionary. Every dictionary the model builds starts from `Empty` or
   * from a well-formed one and grows by `Put`, which keeps it well-formed.
   */
  type Dict<K, V> = DictRep<K, V>

  function Empty<K, V>(): (d: Dict<K, V>)
    ensures d.keys == [] && d.entries == map[]
    ensures WellFormed(d)
  {
    DictRep([], map[])
  }

  /** `d[k] = v`: an existing key keeps its place, a new key goes last. */
  function Put<K(==), V>(d: Dict<K, V>, k: K, v: V): (r: Dict<K, V>)
    ensures r.entries == d.entries[k := v]
    ensures r.keys == if k in d.entries then d.keys else d.keys + [k]
  {
    if k in d.entries then DictRep(d.keys, d.entries[k := v])
    else DictRep(d.keys + [k], d.entries[k := v])
  }

  /** Storing keeps every key listed exactly once. */
  lemma PutWellFormed<K, V>(d: Dict<K, V>, k: K, v: V)
    requires WellFormed(d)
    ensures WellFormed(Put(d, k, v))
  {
    if k !in d.entries {
      var r := Put(d, k, v);
      assert k !in d.keys;
      forall i, j | 0 <= i < j < |r.keys|
        ensures r.keys[i] != r.keys[j]
      {
        if j == |d.keys| {
          assert r.keys[i] == d.keys[i];
        }
      }
    }
  }

  /** `d.items()`, in key order. */
  function Items<K(==), V>(d: Dict<K, V>): (r: seq<(K, V)>)
    requires WellFormed(d)
    ensures |r| == |d.keys|
    ensures forall i :: 0 <= i < |r| ==> r[i] == (d.keys[i], d.entries[d.keys[i]])
  {
    seq(|d.keys|, i requires 0 <= i < |d.keys| => (d.keys[i], d.entries[d.keys[i]]))
  }
}
