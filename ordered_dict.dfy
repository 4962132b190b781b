/** A `Dictionary<string, V>` created with `StringComparer.OrdinalIgnoreCase`
    that is only ever added to: its enumeration order is the order in which
    keys were first inserted, and assigning to a key that is already there
    keeps the stored key (with its original casing) in its place. */
module OrderedDict {
  import opened Wrappers
  import opened Text

  type Dict<V> = seq<(string, V)>

  /** The position of the entry whose key equals `k` ignoring case, or -1. */
  function IndexOfKey<V>(d: Dict<V>, k: string): (r: int)
    ensures -1 <= r < |d|
    ensures r >= 0 ==> SameIgnoringCase(d[r].0, k)
    ensures r >= 0 ==> forall j :: 0 <= j < r ==> !SameIgnoringCase(d[j].0, k)
    ensures r == -1 ==> forall j :: 0 <= j < |d| ==> !SameIgnoringCase(d[j].0, k)
  {
    if d == [] then -1
    else if SameIgnoringCase(d[0].0, k) then 0
    else
      var i := IndexOfKey(d[1..], k);
      if i < 0 then -1 else i + 1
  }

  /** `TryGetValue`. */
  function Get<V>(d: Dict<V>, k: string): Option<V> {
    var i := IndexOfKey(d, k);
    if i >= 0 then Some(d[i].1) else None
  }

  /** The indexer's setter `d[k] = v`. */
  function Set<V>(d: Dict<V>, k: string, v: V): (r: Dict<V>)
    ensures IndexOfKey(d, k) >= 0 ==> |r| == |d|
    ensures IndexOfKey(d, k) >= 0 ==> r[IndexOfKey(d, k)] == (d[IndexOfKey(d, k)].0, v)
    ensures IndexOfKey(d, k) >= 0 ==> forall i :: 0 <= i < |d| && i != IndexOfKey(d, k) ==> r[i] == d[i]
    ensures IndexOfKey(d, k) < 0 ==> r == d + [(k, v)]
  {
    var i := IndexOfKey(d, k);
    if i >= 0 then d[i := (d[i].0, v)] else d + [(k, v)]
  }

  /** No two stored keys are equal ignoring case, as in any such dictionary. */
  predicate DistinctKeys<V>(d: Dict<V>) {
    forall i, j :: 0 <= i < j < |d| ==> !SameIgnoringCase(d[i].0, d[j].0)
  }

  function Keys<V>(d: Dict<V>): (ks: seq<string>)
    ensures |ks| == |d| && forall i :: 0 <= i < |d| ==> ks[i] == d[i].0
  {
    seq(|d|, i requires 0 <= i < |d| => d[i].0)
  }

  /** `Values`, in enumeration order. */
  function Values<V>(d: Dict<V>): (vs: seq<V>)
    ensures |vs| == |d| && forall i :: 0 <= i < |d| ==> vs[i] == d[i].1
  {
    seq(|d|, i requires 0 <= i < |d| => d[i].1)
  }

  /** The dictionary with `f` applied to every value, keys and order kept. */
  function MapValues<V, W>(d: Dict<V>, f: V -> W): (r: Dict<W>)
    ensures |r| == |d|
    ensures forall i :: 0 <= i < |d| ==> r[i] == (d[i].0, f(d[i].1))
  {
    seq(|d|, i requires 0 <= i < |d| => (d[i].0, f(d[i].1)))
  }

  /** Mapping the values of one more entry appends that entry, mapped. */
  lemma MapValuesSnoc<V, W>(d: Dict<V>, f: V -> W, n: nat)
    requires n < |d|
    ensures MapValues(d[..n + 1], f) == MapValues(d[..n], f) + [(d[n].0, f(d[n].1))]
  {
  }

  /** Two dictionaries with the same keys in the same order find keys alike. */
  lemma IndexOfSameKeys<V, W>(d: Dict<V>, e: Dict<W>, k: string)
    requires Keys(d) == Keys(e)
    ensures IndexOfKey(d, k) == IndexOfKey(e, k)
  {
    assert forall n :: 0 <= n < |d| ==> d[n].0 == Keys(d)[n] == Keys(e)[n] == e[n].0;
  }

  /** Reading back after `d[k] = v`: `k` (in any casing) gives `v`, every
      other key what it gave before. */
  lemma GetSet<V>(d: Dict<V>, k: string, v: V, k': string)
    ensures Get(Set(d, k, v), k') == if SameIgnoringCase(k, k') then Some(v) else Get(d, k')
  {
    var i := IndexOfKey(d, k);
    var r := Set(d, k, v);
    if i >= 0 {
      assert Keys(r) == Keys(d);
      IndexOfSameKeys(r, d, k');
    } else {
      if SameIgnoringCase(k, k') {
        assert r[|d|].0 == k;
      } else {
        var j := IndexOfKey(d, k');
        if j >= 0 {
          assert r[j] == d[j];
        }
      }
    }
  }

  /** Assignment keeps the keys distinct. */
  lemma SetKeepsDistinct<V>(d: Dict<V>, k: string, v: V)
    requires DistinctKeys(d)
    ensures DistinctKeys(Set(d, k, v))
  {
    var i := IndexOfKey(d, k);
    if i >= 0 {
      assert Keys(Set(d, k, v)) == Keys(d);
    }
  }

  /** In a dictionary with distinct keys, each stored key finds its own value. */
  lemma GetStored<V>(d: Dict<V>, i: nat)
    requires DistinctKeys(d) && i < |d|
    ensures Get(d, d[i].0) == Some(d[i].1)
  {
    assert SameIgnoringCase(d[i].0, d[i].0);
  }

  /** Mapping the values does not change which keys are found. */
  lemma GetMapValues<V, W>(d: Dict<V>, f: V -> W, k: string)
    ensures Get(MapValues(d, f), k) == if Get(d, k).Some? then Some(f(Get(d, k).value)) else None
  {
    assert Keys(MapValues(d, f)) == Keys(d);
    IndexOfSameKeys(MapValues(d, f), d, k);
  }
}
