/** Sequence helpers shared by the whole model: sums, first occurrences and
    the first-seen de-duplication that Python's "append if not in list" and
    insertion-ordered dictionaries produce. */
module Seqs {
  import opened Wrappers

  /** Extending a prefix by one element. */
  lemma PrefixSnoc<T>(s: seq<T>, i: nat)
    requires i < |s|
    ensures s[..i + 1] == s[..i] + [s[i]]
  {
  }

  /** Sum of `f` over the elements of `s`. */
  function SumOf<T>(s: seq<T>, f: T -> int): int
  {
    if s == [] then 0 else f(s[0]) + SumOf(s[1..], f)
  }

  lemma {:induction false} SumOfConcat<T>(a: seq<T>, b: seq<T>, f: T -> int)
    ensures SumOf(a + b, f) == SumOf(a, f) + SumOf(b, f)
  {
    if a == [] {
      assert a + b == b;
    } else {
      assert (a + b)[1..] == a[1..] + b;
      SumOfConcat(a[1..], b, f);
    }
  }

  lemma SumOfSnoc<T>(s: seq<T>, x: T, f: T -> int)
    ensures SumOf(s + [x], f) == SumOf(s, f) + f(x)
  {
    SumOfConcat(s, [x], f);
  }

  lemma {:induction false} SumOfUpdate<T>(s: seq<T>, j: nat, x: T, f: T -> int)
    requires j < |s|
    ensures SumOf(s[j := x], f) == SumOf(s, f) - f(s[j]) + f(x)
  {
    if j > 0 {
      assert s[j := x][1..] == s[1..][j - 1 := x];
      SumOfUpdate(s[1..], j - 1, x, f);
    }
  }

  /** Sums agree when the summands agree position by position. */
  lemma {:induction false} SumOfPointwise<A, B>(a: seq<A>, f: A -> int, b: seq<B>, g: B -> int)
    requires |a| == |b|
    requires forall i :: 0 <= i < |a| ==> f(a[i]) == g(b[i])
    ensures SumOf(a, f) == SumOf(b, g)
  {
    if a != [] {
      SumOfPointwise(a[1..], f, b[1..], g);
    }
  }

  /** Taking the element at `i` out of a sequence takes its summand out of the sum. */
  lemma SumOfRemove<T>(b: seq<T>, i: nat, f: T -> int)
    requires i < |b|
    ensures SumOf(b, f) == f(b[i]) + SumOf(b[..i] + b[i + 1..], f)
  {
    assert b == b[..i] + b[i..];
    SumOfConcat(b[..i], b[i..], f);
    assert b[i..][1..] == b[i + 1..];
    SumOfConcat(b[..i], b[i + 1..], f);
  }

  /** Taking the element at `i` out of a sequence takes it out of the multiset. */
  lemma MultisetRemove<T>(b: seq<T>, i: nat, rest: seq<T>)
    requires i < |b| && rest == b[..i] + b[i + 1..]
    ensures multiset(b) == multiset(rest) + multiset{b[i]}
  {
    assert b == b[..i] + [b[i]] + b[i + 1..];
  }

  /** One occurrence of the same element can be cancelled from both sides. */
  lemma MultisetCancel<T>(p: multiset<T>, q: multiset<T>, x: T)
    requires p + multiset{x} == q + multiset{x}
    ensures p == q
  {
    forall y
      ensures p[y] == q[y]
    {
      assert (p + multiset{x})[y] == (q + multiset{x})[y];
    }
  }

  /** The head of a sequence occurs in any permutation of it, and the rests
      after taking it out of both are permutations of each other. */
  lemma PermutationUncons<T>(a: seq<T>, b: seq<T>)
    requires a != [] && multiset(a) == multiset(b)
    ensures FirstIndex(b, a[0]) < |b|
    ensures var i := FirstIndex(b, a[0]);
      multiset(a[1..]) == multiset(b[..i] + b[i + 1..])
  {
    var x := a[0];
    assert x in b by {
      assert x in multiset(a);
    }
    var i := FirstIndex(b, x);
    var ra, rb := a[1..], b[..i] + b[i + 1..];
    assert multiset(a) == multiset(ra) + multiset{x} by {
      MultisetRemove(a, 0, ra);
    }
    assert multiset(b) == multiset(rb) + multiset{x} by {
      MultisetRemove(b, i, rb);
    }
    MultisetCancel(multiset(ra), multiset(rb), x);
  }

  /** A sum does not depend on the order of the summands. */
  lemma {:induction false} SumOfPermutation<T>(a: seq<T>, b: seq<T>, f: T -> int)
    requires multiset(a) == multiset(b)
    ensures SumOf(a, f) == SumOf(b, f)
    decreases |a|
  {
    if a != [] {
      PermutationUncons(a, b);
      var i := FirstIndex(b, a[0]);
      SumOfPermutation(a[1..], b[..i] + b[i + 1..], f);
      SumOfRemove(b, i, f);
    } else {
      assert |multiset(b)| == 0;
    }
  }

  /** `s[:n]`: the first `n` elements, or all when there are fewer; a
      negative `n` drops that many from the end. */
  function Take<T>(s: seq<T>, n: int): (r: seq<T>)
    ensures |r| <= |s| && r == s[..|r|]
  {
    if n >= 0 then s[..if n < |s| then n else |s|]
    else s[..if |s| + n > 0 then |s| + n else 0]
  }

  /** An element at a position before `m` is in the prefix of length `m`. */
  lemma InPrefix<T>(s: seq<T>, m: nat, p: nat)
    requires m <= |s| && p < |s|
    ensures p < m ==> s[p] in s[..m]
  {
    if p < m {
      assert s[..m][p] == s[p];
    }
  }

  /** Each element of a permutation is an element of the original. */
  lemma PermutationFrom<T>(a: seq<T>, b: seq<T>, j: nat)
    requires multiset(a) == multiset(b) && j < |b|
    ensures exists i :: 0 <= i < |a| && a[i] == b[j]
  {
    assert b[j] in multiset(b);
    assert b[j] in multiset(a);
    assert b[j] in a;
  }

  /** No element occurs twice. */
  predicate Distinct<T(==)>(s: seq<T>)
  {
    forall i, j :: 0 <= i < j < |s| ==> s[i] != s[j]
  }

  /** Position of the first occurrence of `x` in `s`, or |s| when absent. */
  function FirstIndex<T(==)>(s: seq<T>, x: T): (i: nat)
    ensures i <= |s|
    ensures i < |s| <==> x in s
    ensures i < |s| ==> s[i] == x && x !in s[..i]
  {
    if s == [] then 0
    else if s[0] == x then 0
    else
      assert s[1..][..FirstIndex(s[1..], x)] == s[1..1 + FirstIndex(s[1..], x)];
      1 + FirstIndex(s[1..], x)
  }

  lemma {:induction false} FirstIndexSnoc<T>(s: seq<T>, x: T, y: T)
    ensures FirstIndex(s + [x], y) == if y in s then FirstIndex(s, y) else if y == x then |s| else |s| + 1
  {
    if s != [] {
      assert (s + [x])[1..] == s[1..] + [x];
      FirstIndexSnoc(s[1..], x, y);
    }
  }

  /** The distinct elements of `s`, each where it was first seen: what a
      loop of "if v not in lst: lst.append(v)" leaves in `lst`. */
  function Dedup<T(==)>(s: seq<T>): (r: seq<T>)
    ensures Distinct(r)
    ensures |r| <= |s|
  {
    if s == [] then []
    else
      var d := Dedup(s[..|s| - 1]);
      var x := s[|s| - 1];
      if x in d then d else d + [x]
  }

  /** Dedup keeps exactly the elements of its input. */
  lemma {:induction false} DedupHas<T>(s: seq<T>, x: T)
    ensures x in Dedup(s) <==> x in s
  {
    if s != [] {
      var init := s[..|s| - 1];
      DedupHas(init, x);
      assert s == init + [s[|s| - 1]];
    }
  }

  /** Dedup keeps first-seen order: an element listed earlier was seen earlier. */
  lemma {:induction false} DedupFirstSeen<T>(s: seq<T>)
    ensures forall p, q :: 0 <= p < q < |Dedup(s)| ==> FirstIndex(s, Dedup(s)[p]) < FirstIndex(s, Dedup(s)[q])
  {
    if s != [] {
      var init, x := s[..|s| - 1], s[|s| - 1];
      assert s == init + [x];
      DedupFirstSeen(init);
      var d := Dedup(init);
      var r := Dedup(s);
      forall p, q | 0 <= p < q < |r|
        ensures FirstIndex(s, r[p]) < FirstIndex(s, r[q])
      {
        DedupHas(init, r[p]);
        FirstIndexSnoc(init, x, r[p]);
        FirstIndexSnoc(init, x, r[q]);
        assert r[p] == d[p];
        if q < |d| {
          DedupHas(init, r[q]);
          assert r[q] == d[q];
        } else {
          assert r == d + [x] && r[q] == x;
          DedupHas(init, x);
          assert FirstIndex(init, r[p]) < |init|;
        }
      }
    }
  }

  /** Appending a fresh element to a Dedup extends it; a seen one leaves it alone. */
  lemma DedupSnoc<T>(s: seq<T>, x: T)
    ensures Dedup(s + [x]) == if x in Dedup(s) then Dedup(s) else Dedup(s) + [x]
  {
    assert (s + [x])[..|s + [x]| - 1] == s;
  }

  /** The values `f` yields on the elements of `s`, skipping those where it
      yields nothing: a loop that `continue`s past bad elements and appends
      the rest. */
  function FilterMap<T, U>(s: seq<T>, f: T -> Option<U>): seq<U>
  {
    if s == [] then [] else Yield(f(s[0])) + FilterMap(s[1..], f)
  }

  function Yield<U>(o: Option<U>): seq<U>
  {
    match o
    case Some(u) => [u]
    case None => []
  }

  /** FilterMap handles the elements one at a time and keeps their order. */
  lemma {:induction false} FilterMapConcat<T, U>(a: seq<T>, b: seq<T>, f: T -> Option<U>)
    ensures FilterMap(a + b, f) == FilterMap(a, f) + FilterMap(b, f)
  {
    if a == [] {
      assert a + b == b;
    } else {
      assert (a + b)[1..] == a[1..] + b;
      FilterMapConcat(a[1..], b, f);
      var y, r, q := Yield(f(a[0])), FilterMap(a[1..], f), FilterMap(b, f);
      assert y + (r + q) == (y + r) + q;
    }
  }

  /** `s'` is `s` followed by `x`. */
  lemma FilterMapSnoc<T, U>(s: seq<T>, x: T, s': seq<T>, f: T -> Option<U>)
    requires s' == s + [x]
    ensures FilterMap(s', f) == FilterMap(s, f) + Yield(f(x))
  {
    FilterMapConcat(s, [x], f);
    assert FilterMap([x], f) == Yield(f(x)) + FilterMap([x][1..], f);
    assert [x][1..] == [];
  }

  lemma {:induction false} FilterMapLength<T, U>(s: seq<T>, f: T -> Option<U>)
    ensures |FilterMap(s, f)| <= |s|
  {
    if s != [] {
      FilterMapLength(s[1..], f);
    }
  }

  /** Every output value is what `f` yields on some input element. */
  lemma {:induction false} FilterMapSound<T, U>(s: seq<T>, f: T -> Option<U>, k: nat)
    requires k < |FilterMap(s, f)|
    ensures exists i :: 0 <= i < |s| && f(s[i]) == Some(FilterMap(s, f)[k])
  {
    var y := Yield(f(s[0]));
    if k < |y| {
      assert f(s[0]) == Some(FilterMap(s, f)[k]);
    } else {
      FilterMapSound(s[1..], f, k - |y|);
      var i :| 0 <= i < |s[1..]| && f(s[1..][i]) == Some(FilterMap(s[1..], f)[k - |y|]);
      assert f(s[i + 1]) == Some(FilterMap(s, f)[k]);
    }
  }

  /** Every value `f` yields on an input element is in the output. */
  lemma {:induction false} FilterMapComplete<T, U>(s: seq<T>, f: T -> Option<U>, i: nat)
    requires i < |s| && f(s[i]).Some?
    ensures f(s[i]).value in FilterMap(s, f)
  {
    if i > 0 {
      assert s[1..][i - 1] == s[i];
      FilterMapComplete(s[1..], f, i - 1);
    }
  }
}
