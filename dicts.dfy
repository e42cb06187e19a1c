/** Python's insertion-ordered `dict` with string keys, as a sequence of
    key/value pairs. Lookup finds the LAST pair with the key, which is what
    `json.loads` keeps when a document repeats a key; every dictionary the
    modelled code builds itself has distinct keys. */
module Dicts {
  import opened Wrappers

  type Dict<V> = seq<(string, V)>

  function Keys<V>(d: Dict<V>): (ks: seq<string>)
    ensures |ks| == |d|
    ensures forall i :: 0 <= i < |d| ==> ks[i] == d[i].0
  {
    seq(|d|, i requires 0 <= i < |d| => d[i].0)
  }

  predicate Distinct(s: seq<string>) {
    forall i, j :: 0 <= i < j < |s| ==> s[i] != s[j]
  }

  /** `d.get(k)`: the value of the last pair whose key is `k`. */
  function Lookup<V>(d: Dict<V>, k: string): (r: Option<V>)
    ensures r.None? <==> k !in Keys(d)
    ensures r.Some? ==> (k, r.value) in d
  {
    if d == [] then None
    else if d[|d| - 1].0 == k then Some(d[|d| - 1].1)
    else
      var r := Lookup(d[..|d| - 1], k);
      assert Keys(d) == Keys(d[..|d| - 1]) + [d[|d| - 1].0];
      r
  }

  /** With distinct keys, looking up the key of any pair finds that pair. */
  lemma {:induction false} LookupDistinct<V>(d: Dict<V>, i: nat)
    requires Distinct(Keys(d)) && i < |d|
    ensures Lookup(d, d[i].0) == Some(d[i].1)
  {
    if i < |d| - 1 {
      var init := d[..|d| - 1];
      assert Keys(init) == Keys(d)[..|d| - 1];
      assert init[i] == d[i];
      LookupDistinct(init, i);
    }
  }

  lemma LookupDistinctAll<V>(d: Dict<V>)
    requires Distinct(Keys(d))
    ensures forall i :: 0 <= i < |d| ==> Lookup(d, d[i].0) == Some(d[i].1)
  {
    forall i | 0 <= i < |d| {
      LookupDistinct(d, i);
    }
  }

  /** Pairs appended under other keys do not change a lookup. */
  lemma {:induction false} LookupAppend<V>(d: Dict<V>, e: Dict<V>, k: string)
    requires k !in Keys(e)
    ensures Lookup(d + e, k) == Lookup(d, k)
  {
    if e != [] {
      var n := |e| - 1;
      assert (d + e)[..|d + e| - 1] == d + e[..n];
      assert Keys(e[..n]) == Keys(e)[..n];
      assert e[n].0 == Keys(e)[n];
      LookupAppend(d, e[..n], k);
    } else {
      assert d + e == d;
    }
  }

  lemma KeysAppend<V>(d: Dict<V>, e: Dict<V>)
    ensures Keys(d + e) == Keys(d) + Keys(e)
  {
  }
}
