/** Python's insertion-ordered `dict`, modelled as a sequence of key/value
    pairs whose keys are distinct. Iterating a dict visits `Keys` in order. */
module OrderedDict {
  import opened Wrappers
  import opened Seqs

  type Dict<K, V> = seq<(K, V)>

  /** The keys in insertion order. */
  function Keys<K, V>(d: Dict<K, V>): (ks: seq<K>)
    ensures |ks| == |d|
    ensures forall i :: 0 <= i < |d| ==> ks[i] == d[i].0
  {
    seq(|d|, i requires 0 <= i < |d| => d[i].0)
  }

  lemma KeysSnoc<K, V>(d: Dict<K, V>, e: (K, V))
    ensures Keys(d + [e]) == Keys(d) + [e.0]
  {
  }

  /** No key is stored twice. */
  predicate Valid<K(==), V>(d: Dict<K, V>)
  {
    Distinct(Keys(d))
  }

  /** The slot that holds `k` (`k in d` and the lookup of `d[k]`). */
  function Find<K(==), V>(d: Dict<K, V>, k: K): (r: Option<nat>)
    ensures r.Some? ==> r.value < |d| && d[r.value].0 == k
    ensures r.None? <==> k !in Keys(d)
  {
    var i := FirstIndex(Keys(d), k);
    if i < |d| then Some(i) else None
  }

  /** `d.get(k)`: the value stored under `k`, if any. */
  function Get<K(==), V>(d: Dict<K, V>, k: K): Option<V>
  {
    match Find(d, k)
    case Some(i) => Some(d[i].1)
    case None => None
  }

  /** In a valid dict the lookup of a stored key finds its own slot. */
  lemma FindAt<K, V>(d: Dict<K, V>, j: nat)
    requires Valid(d) && j < |d|
    ensures Find(d, d[j].0) == Some(j)
    ensures Get(d, d[j].0) == Some(d[j].1)
  {
    var i := FirstIndex(Keys(d), d[j].0);
    assert Keys(d)[j] == d[j].0;
  }

  /** `d[k] = v`: overwrite in place when `k` is present, otherwise append. */
  function Put<K(==), V>(d: Dict<K, V>, k: K, v: V): (r: Dict<K, V>)
    ensures Keys(r) == if k in Keys(d) then Keys(d) else Keys(d) + [k]
    ensures Valid(d) ==> Valid(r)
  {
    match Find(d, k)
    case Some(i) =>
      var r := d[i := (k, v)];
      assert Keys(r) == Keys(d);
      r
    case None =>
      var r := d + [(k, v)];
      assert Keys(r) == Keys(d) + [k];
      r
  }

  /** After `d[k] = v`, looking up `k` gives `v` and every other key is unchanged. */
  lemma GetPut<K, V>(d: Dict<K, V>, k: K, v: V, k': K)
    requires Valid(d)
    ensures Get(Put(d, k, v), k') == if k' == k then Some(v) else Get(d, k')
  {
    var r := Put(d, k, v);
    if k' in Keys(d) {
      var j := FirstIndex(Keys(d), k');
      FindAt(r, j);
      FindAt(d, j);
    } else if k' == k {
      FindAt(r, |d|);
    } else {
      assert k' !in Keys(r);
    }
  }

  /** A permutation of a dictionary's entries lists the same keys. */
  lemma PermutationKeys<K, V>(a: Dict<K, V>, b: Dict<K, V>, k: K)
    requires multiset(a) == multiset(b)
    ensures k in Keys(a) <==> k in Keys(b)
  {
    if k in Keys(b) {
      var j :| 0 <= j < |b| && Keys(b)[j] == k;
      PermutationFrom(a, b, j);
      var i :| 0 <= i < |a| && a[i] == b[j];
      assert Keys(a)[i] == k;
    }
    if k in Keys(a) {
      var i :| 0 <= i < |a| && Keys(a)[i] == k;
      PermutationFrom(b, a, i);
      var j :| 0 <= j < |b| && b[j] == a[i];
      assert Keys(b)[j] == k;
    }
  }

  /** In a valid dictionary every entry occurs once. */
  lemma {:induction false} ValidOnce<K, V>(d: Dict<K, V>, e: (K, V))
    requires Valid(d)
    ensures multiset(d)[e] <= 1
  {
    if d != [] {
      var tail := d[1..];
      assert d == [d[0]] + tail;
      assert Keys(tail) == Keys(d)[1..];
      ValidOnce(tail, e);
      if d[0] == e {
        forall j | 0 <= j < |tail|
          ensures tail[j] != e
        {
          assert Keys(d)[j + 1] != Keys(d)[0];
        }
        assert e !in tail;
      }
    }
  }

  /** An entry listed at two positions occurs twice. */
  lemma TwiceCounted<T>(s: seq<T>, i: nat, j: nat)
    requires i < j < |s|
    ensures s[i] == s[j] ==> multiset(s)[s[i]] >= 2
  {
    if s[i] == s[j] {
      assert s == s[..j] + [s[j]] + s[j + 1..];
      assert s[i] == s[..j][i];
      assert s[i] in multiset(s[..j]);
    }
  }

  /** A permutation of a valid dictionary is valid. */
  lemma PermutationValid<K, V>(a: Dict<K, V>, b: Dict<K, V>)
    requires multiset(a) == multiset(b) && Valid(a)
    ensures Valid(b)
  {
    forall i, j | 0 <= i < j < |b|
      ensures Keys(b)[i] != Keys(b)[j]
    {
      PermutationFrom(a, b, i);
      PermutationFrom(a, b, j);
      var p :| 0 <= p < |a| && a[p] == b[i];
      var q :| 0 <= q < |a| && a[q] == b[j];
      TwiceCounted(b, i, j);
      ValidOnce(a, b[i]);
      assert Keys(a)[p] == a[p].0 && Keys(a)[q] == a[q].0;
    }
  }
}
