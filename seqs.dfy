/** Sequence operations with the meaning of the JavaScript array methods the
    engine is built from: `find`, `filter`, `slice(0, n)` and `slice(-n)`. */
module Seqs {

  datatype Option<T> = None | Some(value: T)

  function Min(a: int, b: int): int { if a <= b then a else b }

  /** `s.filter(f)`: the elements of `s` that satisfy `f`, in their order. */
  function Filter<T>(s: seq<T>, f: T -> bool): (r: seq<T>)
    ensures |r| <= |s|
    ensures forall x :: x in r ==> x in s && f(x)
  {
    if s == [] then []
    else
      assert s == [s[0]] + s[1..];
      if f(s[0]) then [s[0]] + Filter(s[1..], f) else Filter(s[1..], f)
  }

  /** `s.find(f)`: the first element satisfying `f`, or `undefined` (None). */
  function Find<T(==)>(s: seq<T>, f: T -> bool): (r: Option<T>)
    ensures r.None? <==> forall x :: x in s ==> !f(x)
    ensures r.Some? ==> exists i :: 0 <= i < |s| && s[i] == r.value && f(s[i]) && FirstAt(s, f, i)
  {
    if s == [] then None
    else if f(s[0]) then
      assert FirstAt(s, f, 0);
      Some(s[0])
    else
      var r := Find(s[1..], f);
      if r.Some? then
        var i :| 0 <= i < |s[1..]| && s[1..][i] == r.value && f(s[1..][i]) && FirstAt(s[1..], f, i);
        assert FirstAt(s, f, i + 1);
        r
      else r
  }

  /** No element before index `i` satisfies `f`. */
  predicate FirstAt<T>(s: seq<T>, f: T -> bool, i: int)
    requires 0 <= i <= |s|
  {
    forall j :: 0 <= j < i ==> !f(s[j])
  }

  /** When `s[i]` is the first match, `find` returns it. */
  lemma {:induction false} FindAt<T>(s: seq<T>, f: T -> bool, i: nat)
    requires i < |s| && f(s[i]) && FirstAt(s, f, i)
    ensures Find(s, f) == Some(s[i])
  {
    if i > 0 {
      FindAt(s[1..], f, i - 1);
    }
  }

  /** `s.slice(0, n)`: the longest prefix of `s` with at most `n` elements. */
  function Take<T>(s: seq<T>, n: nat): (r: seq<T>)
    ensures r <= s && |r| <= n
    ensures |r| < n ==> r == s
  {
    if n <= |s| then s[..n] else s
  }

  /** `s.slice(-n)` for `n > 0`: the longest suffix of `s` with at most `n` elements. */
  function TakeLast<T>(s: seq<T>, n: nat): (r: seq<T>)
    ensures |r| <= n && |r| <= |s|
    ensures |r| < n ==> r == s
    ensures s == s[..|s| - |r|] + r
  {
    if n <= |s| then s[|s| - n..] else s
  }

  /** `a` can be obtained from `b` by deleting elements. */
  predicate IsSubsequence<T(==)>(a: seq<T>, b: seq<T>)
    decreases |b|
  {
    a == [] ||
    (b != [] &&
      ((a[0] == b[0] && IsSubsequence(a[1..], b[1..])) || IsSubsequence(a, b[1..])))
  }

  /** No two elements, in either order of position, fail `rel`. */
  predicate Pairwise<T>(s: seq<T>, rel: (T, T) -> bool)
  {
    forall i, j :: 0 <= i < j < |s| ==> rel(s[i], s[j])
  }

  lemma FilterCons<T>(a: T, s: seq<T>, f: T -> bool)
    ensures Filter([a] + s, f) == (if f(a) then [a] else []) + Filter(s, f)
  {
    assert ([a] + s)[1..] == s;
  }

  lemma {:induction false} FilterConcat<T>(a: seq<T>, b: seq<T>, f: T -> bool)
    ensures Filter(a + b, f) == Filter(a, f) + Filter(b, f)
    decreases |a|
  {
    if a != [] {
      assert a + b == [a[0]] + (a[1..] + b);
      FilterCons(a[0], a[1..] + b, f);
      FilterConcat(a[1..], b, f);
      FilterCons(a[0], a[1..], f);
      assert a == [a[0]] + a[1..];
    } else {
      assert a + b == b;
    }
  }

  /** Every element that passes the test survives the filter. */
  lemma {:induction false} FilterKeeps<T>(s: seq<T>, f: T -> bool, x: T)
    requires x in s && f(x)
    ensures x in Filter(s, f)
  {
    if s[0] != x {
      FilterKeeps(s[1..], f, x);
    }
  }

  /** The filter keeps every copy of an element that passes and no copy of
      one that fails. */
  lemma {:induction false} FilterCounts<T>(s: seq<T>, f: T -> bool, x: T)
    ensures multiset(Filter(s, f))[x] == if f(x) then multiset(s)[x] else 0
  {
    if s != [] {
      FilterCounts(s[1..], f, x);
      assert s == [s[0]] + s[1..];
      assert multiset(s) == multiset{s[0]} + multiset(s[1..]);
    }
  }

  /** Filtering twice with the same test changes nothing the second time. */
  lemma {:induction false} FilterIdempotent<T>(s: seq<T>, f: T -> bool)
    ensures Filter(Filter(s, f), f) == Filter(s, f)
  {
    FilterAll(Filter(s, f), f);
  }

  /** A filter that every element passes keeps the sequence. */
  lemma {:induction false} FilterAll<T>(s: seq<T>, f: T -> bool)
    requires forall x :: x in s ==> f(x)
    ensures Filter(s, f) == s
  {
    if s != [] {
      FilterAll(s[1..], f);
      FilterCons(s[0], s[1..], f);
      assert s == [s[0]] + s[1..];
    }
  }

  /** A filter that no element passes gives the empty sequence. */
  lemma FilterNone<T>(s: seq<T>, f: T -> bool)
    requires forall x :: x in s ==> !f(x)
    ensures Filter(s, f) == []
  {
    if Filter(s, f) != [] {
      assert Filter(s, f)[0] in Filter(s, f);
    }
  }

  /** Filtering by `g` first does not change the first match of `f` when
      every match of `f` passes `g`. */
  lemma {:induction false} FindAfterFilter<T>(s: seq<T>, g: T -> bool, f: T -> bool)
    requires forall x :: f(x) ==> g(x)
    ensures Find(Filter(s, g), f) == Find(s, f)
  {
    if s != [] {
      FindAfterFilter(s[1..], g, f);
      FilterCons(s[0], s[1..], g);
      assert s == [s[0]] + s[1..];
      if g(s[0]) {
        assert ([s[0]] + Filter(s[1..], g))[1..] == Filter(s[1..], g);
      }
    }
  }

  /** An element appended at the end is found only when nothing before it matches. */
  lemma {:induction false} FindAppend<T>(s: seq<T>, x: T, f: T -> bool)
    ensures Find(s + [x], f) == if Find(s, f).Some? then Find(s, f) else if f(x) then Some(x) else None
  {
    if s == [] {
      assert s + [x] == [x];
    } else {
      assert (s + [x])[1..] == s[1..] + [x];
      FindAppend(s[1..], x, f);
    }
  }

  lemma {:induction false} FilterIsSubsequence<T>(s: seq<T>, f: T -> bool)
    ensures IsSubsequence(Filter(s, f), s)
  {
    if s != [] {
      FilterIsSubsequence(s[1..], f);
      if f(s[0]) {
        assert ([s[0]] + Filter(s[1..], f))[1..] == Filter(s[1..], f);
      }
    }
  }

  lemma {:induction false} PrefixIsSubsequence<T>(p: seq<T>, s: seq<T>)
    requires p <= s
    ensures IsSubsequence(p, s)
  {
    if p != [] {
      assert p[1..] <= s[1..];
      PrefixIsSubsequence(p[1..], s[1..]);
    }
  }

  lemma {:induction false} SubsequenceTransitive<T>(a: seq<T>, b: seq<T>, c: seq<T>)
    requires IsSubsequence(a, b) && IsSubsequence(b, c)
    ensures IsSubsequence(a, c)
    decreases |c|
  {
    if a != [] {
      if IsSubsequence(b, c[1..]) {
        SubsequenceTransitive(a, b, c[1..]);
      } else if a[0] == b[0] && IsSubsequence(a[1..], b[1..]) {
        SubsequenceTransitive(a[1..], b[1..], c[1..]);
      } else {
        SubsequenceTransitive(a, b[1..], c[1..]);
      }
    }
  }

  /** Filtering keeps every pairwise relation the sequence had. */
  lemma {:induction false} FilterPairwise<T>(s: seq<T>, f: T -> bool, rel: (T, T) -> bool)
    requires Pairwise(s, rel)
    ensures Pairwise(Filter(s, f), rel)
  {
    if s != [] {
      PairwiseTail(s, rel);
      FilterPairwise(s[1..], f, rel);
      if f(s[0]) {
        var t := Filter(s[1..], f);
        forall y | y in t ensures rel(s[0], y) {
          var k :| 0 <= k < |s[1..]| && s[1..][k] == y;
          assert s[k + 1] == y;
        }
        PairwiseCons(s[0], t, rel);
      }
    }
  }

  lemma PairwiseTail<T>(s: seq<T>, rel: (T, T) -> bool)
    requires s != [] && Pairwise(s, rel)
    ensures Pairwise(s[1..], rel)
  {
    forall i, j | 0 <= i < j < |s[1..]| ensures rel(s[1..][i], s[1..][j]) {
      assert s[1..][i] == s[i + 1] && s[1..][j] == s[j + 1];
    }
  }

  lemma PairwiseCons<T>(a: T, t: seq<T>, rel: (T, T) -> bool)
    requires Pairwise(t, rel) && forall y :: y in t ==> rel(a, y)
    ensures Pairwise([a] + t, rel)
  {
    var r := [a] + t;
    forall i, j | 0 <= i < j < |r| ensures rel(r[i], r[j]) {
      assert r[j] == t[j - 1];
      if i > 0 {
        assert r[i] == t[i - 1];
      }
    }
  }

  /** A prefix of a sequence filters to a prefix of its filter. */
  lemma {:induction false} FilterPrefix<T>(p: seq<T>, s: seq<T>, f: T -> bool)
    requires p <= s
    ensures Filter(p, f) <= Filter(s, f)
  {
    assert s == p + s[|p|..];
    FilterConcat(p, s[|p|..], f);
  }
}
