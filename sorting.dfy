/** Reference definitions of the two library sorts the analytics call:
    `list.sort(key=..., reverse=...)` / `sorted(..., key=..., reverse=True)`
    on an integer key, which Python guarantees to be stable, and `sorted`
    on string keys, which compares code point by code point. */
module Sorting {
  import opened Seqs
  import OrderedDict

  /** The ranks never increase from left to right. */
  ghost predicate NonIncreasing<T>(s: seq<T>, rank: T -> int)
  {
    forall i, j :: 0 <= i < j < |s| ==> rank(s[i]) >= rank(s[j])
  }

  /** `tag` grows strictly from left to right. */
  ghost predicate IncreasingBy<T>(s: seq<T>, tag: T -> int)
  {
    forall i, j :: 0 <= i < j < |s| ==> tag(s[i]) < tag(s[j])
  }

  /** Among elements of equal rank, `tag` grows from left to right. */
  ghost predicate TiesOrderedBy<T>(s: seq<T>, rank: T -> int, tag: T -> int)
  {
    forall i, j :: 0 <= i < j < |s| && rank(s[i]) == rank(s[j]) ==> tag(s[i]) < tag(s[j])
  }

  /** Puts `x` in front of the first element of `s` that does not outrank it. */
  function Insert<T>(x: T, s: seq<T>, rank: T -> int): (r: seq<T>)
    ensures multiset(r) == multiset(s) + multiset{x}
    ensures |r| == |s| + 1
  {
    if s == [] || rank(s[0]) <= rank(x) then [x] + s
    else
      assert s == [s[0]] + s[1..];
      [s[0]] + Insert(x, s[1..], rank)
  }

  /** Stable sort, highest rank first. An ascending stable sort on a key is
      this sort on the negated key. */
  function SortDesc<T>(s: seq<T>, rank: T -> int): (r: seq<T>)
    ensures multiset(r) == multiset(s)
    ensures |r| == |s|
  {
    if s == [] then []
    else
      assert s == [s[0]] + s[1..];
      Insert(s[0], SortDesc(s[1..], rank), rank)
  }

  lemma InMultiset<T>(x: T, s: seq<T>)
    requires x in multiset(s)
    ensures exists k :: 0 <= k < |s| && s[k] == x
  {
    assert x in s;
  }

  lemma {:induction false} InsertNonIncreasing<T>(x: T, s: seq<T>, rank: T -> int)
    requires NonIncreasing(s, rank)
    ensures NonIncreasing(Insert(x, s, rank), rank)
  {
    if s != [] && rank(s[0]) > rank(x) {
      var tail := s[1..];
      InsertNonIncreasing(x, tail, rank);
      var r' := Insert(x, tail, rank);
      forall j | 0 <= j < |r'|
        ensures rank(r'[j]) <= rank(s[0])
      {
        assert r'[j] in multiset(r');
        if r'[j] != x {
          assert r'[j] in multiset(tail);
          InMultiset(r'[j], tail);
        }
      }
    }
  }

  /** The sort's output is ordered by rank, highest first. */
  lemma {:induction false} SortDescNonIncreasing<T>(s: seq<T>, rank: T -> int)
    ensures NonIncreasing(SortDesc(s, rank), rank)
  {
    if s != [] {
      SortDescNonIncreasing(s[1..], rank);
      InsertNonIncreasing(s[0], SortDesc(s[1..], rank), rank);
    }
  }

  lemma {:induction false} InsertStable<T>(x: T, s: seq<T>, rank: T -> int, tag: T -> int)
    requires NonIncreasing(s, rank) && TiesOrderedBy(s, rank, tag)
    requires forall k :: 0 <= k < |s| ==> tag(x) < tag(s[k])
    ensures TiesOrderedBy(Insert(x, s, rank), rank, tag)
  {
    if s != [] && rank(s[0]) > rank(x) {
      var tail := s[1..];
      InsertStable(x, tail, rank, tag);
      var r' := Insert(x, tail, rank);
      forall j | 0 <= j < |r'| && rank(s[0]) == rank(r'[j])
        ensures tag(s[0]) < tag(r'[j])
      {
        FromInsert(x, tail, rank, j);
      }
      var r := Insert(x, s, rank);
      assert r == [s[0]] + r';
      forall i, j | 0 <= i < j < |r| && rank(r[i]) == rank(r[j])
        ensures tag(r[i]) < tag(r[j])
      {
        if i > 0 {
          assert r[i] == r'[i - 1] && r[j] == r'[j - 1];
        }
      }
    }
  }

  /** An element of an insertion is the inserted one or comes from the list. */
  lemma FromInsert<T>(x: T, s: seq<T>, rank: T -> int, j: nat)
    requires j < |Insert(x, s, rank)|
    ensures Insert(x, s, rank)[j] == x || exists k :: 0 <= k < |s| && s[k] == Insert(x, s, rank)[j]
  {
    var r := Insert(x, s, rank);
    assert r[j] in multiset(r);
    if r[j] != x {
      assert r[j] in multiset(s);
      InMultiset(r[j], s);
    }
  }

  /** Stability: when the input is listed in increasing `tag` order (for
      instance, the order in which keys were first seen), equal ranks keep
      that order in the output. */
  lemma {:induction false} SortDescStable<T>(s: seq<T>, rank: T -> int, tag: T -> int)
    requires IncreasingBy(s, tag)
    ensures TiesOrderedBy(SortDesc(s, rank), rank, tag)
  {
    if s != [] {
      var tail := s[1..];
      var sorted := SortDesc(tail, rank);
      SortDescStable(tail, rank, tag);
      SortDescNonIncreasing(tail, rank);
      forall k | 0 <= k < |sorted|
        ensures tag(s[0]) < tag(sorted[k])
      {
        assert sorted[k] in multiset(sorted);
        InMultiset(sorted[k], tail);
      }
      InsertStable(s[0], sorted, rank, tag);
    }
  }

  /** Keeping a prefix keeps the order. */
  lemma TakeNonIncreasing<T>(s: seq<T>, rank: T -> int, n: int)
    requires NonIncreasing(s, rank)
    ensures NonIncreasing(Take(s, n), rank)
  {
    var t := Take(s, n);
    assert forall i :: 0 <= i < |t| ==> t[i] == s[i];
  }

  lemma TakeTiesOrdered<T>(s: seq<T>, rank: T -> int, tag: T -> int, n: int)
    requires TiesOrderedBy(s, rank, tag)
    ensures TiesOrderedBy(Take(s, n), rank, tag)
  {
    var t := Take(s, n);
    assert forall i :: 0 <= i < |t| ==> t[i] == s[i];
  }

  /** In a list sorted highest first, an entry whose key is missing from a
      prefix ranks no higher than any entry of that prefix. */
  lemma OutsidePrefix<V>(s: seq<(string, V)>, rank: ((string, V)) -> int, m: nat, p: nat)
    requires NonIncreasing(s, rank) && m <= |s| && p < |s|
    requires s[p].0 !in OrderedDict.Keys(s[..m])
    ensures forall k :: 0 <= k < m ==> rank(s[k]) >= rank(s[p])
  {
    var ks := OrderedDict.Keys(s);
    assert OrderedDict.Keys(s[..m]) == ks[..m];
    InPrefix(ks, m, p);
  }

  /** Where an entry's key was first seen in `order`: the order in which an
      insertion-ordered dictionary keyed on `order` lists its entries. */
  function SeenOrder<V>(order: seq<string>): ((string, V)) -> int
  {
    (e: (string, V)) => FirstIndex(order, e.0)
  }

  /** Entries whose keys are listed first seen first increase in SeenOrder. */
  lemma FirstSeenIncreasing<V>(r: seq<(string, V)>, order: seq<string>)
    requires OrderedDict.Keys(r) == Dedup(order)
    ensures IncreasingBy(r, SeenOrder(order))
  {
    DedupFirstSeen(order);
    forall i, j | 0 <= i < j < |r|
      ensures SeenOrder(order)(r[i]) < SeenOrder(order)(r[j])
    {
      assert OrderedDict.Keys(r)[i] == r[i].0 && OrderedDict.Keys(r)[j] == r[j].0;
    }
  }

  /** Python's ordering of `str` values: code point by code point, a proper
      prefix before its extensions. */
  predicate LexLess(a: string, b: string)
    decreases |a|
  {
    if a == [] then b != []
    else b != [] && (if a[0] == b[0] then LexLess(a[1..], b[1..]) else a[0] < b[0])
  }

  lemma {:induction false} LexLessIrreflexive(a: string)
    ensures !LexLess(a, a)
  {
    if a != [] {
      LexLessIrreflexive(a[1..]);
    }
  }

  lemma {:induction false} LexLessTransitive(a: string, b: string, c: string)
    requires LexLess(a, b) && LexLess(b, c)
    ensures LexLess(a, c)
    decreases |a|
  {
    if a != [] && a[0] == b[0] && b[0] == c[0] {
      LexLessTransitive(a[1..], b[1..], c[1..]);
    }
  }

  lemma {:induction false} LexLessTotal(a: string, b: string)
    requires a != b
    ensures LexLess(a, b) || LexLess(b, a)
    decreases |a|
  {
    if a != [] && b != [] && a[0] == b[0] {
      assert a == [a[0]] + a[1..] && b == [b[0]] + b[1..];
      LexLessTotal(a[1..], b[1..]);
    }
  }

  lemma {:induction false} LexLessAsymmetric(a: string, b: string)
    requires LexLess(a, b)
    ensures !LexLess(b, a)
    decreases |a|
  {
    if a != [] && a[0] == b[0] {
      LexLessAsymmetric(a[1..], b[1..]);
    }
  }

  /** Keys grow strictly (so they are also distinct). */
  ghost predicate StrictlyAscending<V>(s: seq<(string, V)>)
  {
    forall i, j :: 0 <= i < j < |s| ==> LexLess(s[i].0, s[j].0)
  }

  /** In a strictly ascending dictionary, key order is position order. */
  lemma AscendingIndex<V>(s: seq<(string, V)>, k: nat, j: nat)
    requires StrictlyAscending(s) && k < |s| && j < |s|
    ensures LexLess(s[k].0, s[j].0) <==> k < j
  {
    if k == j {
      LexLessIrreflexive(s[k].0);
    } else if j < k {
      LexLessAsymmetric(s[j].0, s[k].0);
    }
  }

  /** Puts `x` in front of the first entry whose key is larger. */
  function InsertByKey<V>(x: (string, V), s: seq<(string, V)>): (r: seq<(string, V)>)
    ensures multiset(r) == multiset(s) + multiset{x}
    ensures |r| == |s| + 1
  {
    if s == [] || LexLess(x.0, s[0].0) then [x] + s
    else
      assert s == [s[0]] + s[1..];
      [s[0]] + InsertByKey(x, s[1..])
  }

  /** `sorted` of the entries of a dictionary by key. */
  function SortByKey<V>(s: seq<(string, V)>): (r: seq<(string, V)>)
    ensures multiset(r) == multiset(s)
    ensures |r| == |s|
  {
    if s == [] then []
    else
      assert s == [s[0]] + s[1..];
      InsertByKey(s[0], SortByKey(s[1..]))
  }

  lemma {:induction false} InsertByKeyAscending<V>(x: (string, V), s: seq<(string, V)>)
    requires StrictlyAscending(s)
    requires forall k :: 0 <= k < |s| ==> s[k].0 != x.0
    ensures StrictlyAscending(InsertByKey(x, s))
  {
    if s != [] {
      if LexLess(x.0, s[0].0) {
        forall k | 0 < k < |s| ensures LexLess(x.0, s[k].0) {
          LexLessTransitive(x.0, s[0].0, s[k].0);
        }
      } else {
        LexLessTotal(x.0, s[0].0);
        var tail := s[1..];
        InsertByKeyAscending(x, tail);
        var r' := InsertByKey(x, tail);
        forall j | 0 <= j < |r'|
          ensures LexLess(s[0].0, r'[j].0)
        {
          assert r'[j] in multiset(r');
          if r'[j] != x {
            assert r'[j] in multiset(tail);
            InMultiset(r'[j], tail);
          }
        }
      }
    }
  }

  /** Sorting entries with distinct keys leaves their keys strictly ascending. */
  lemma {:induction false} SortByKeyAscending<V>(s: seq<(string, V)>)
    requires OrderedDict.Valid(s)
    ensures StrictlyAscending(SortByKey(s))
  {
    if s != [] {
      var tail := s[1..];
      assert OrderedDict.Keys(tail) == OrderedDict.Keys(s)[1..];
      SortByKeyAscending(tail);
      var sorted := SortByKey(tail);
      forall k | 0 <= k < |sorted|
        ensures sorted[k].0 != s[0].0
      {
        assert sorted[k] in multiset(sorted);
        InMultiset(sorted[k], tail);
        assert OrderedDict.Keys(s)[0] == s[0].0;
      }
      InsertByKeyAscending(s[0], sorted);
    }
  }
}
