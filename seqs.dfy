/** Order-preserving filtering of sequences (the `Array.prototype.filter` every
    screen uses) and the subsequence relation it establishes. */
module Seqs {

  /** The elements of `s` that satisfy `p`, in their original order. */
  function Filter<T>(s: seq<T>, p: T -> bool): (r: seq<T>)
    ensures |r| <= |s|
  {
    if s == [] then []
    else (if p(s[0]) then [s[0]] else []) + Filter(s[1..], p)
  }

  /** Filtering keeps exactly the elements that satisfy the predicate, and
      never more copies of one than the input has. */
  lemma {:induction false} FilterMembers<T>(s: seq<T>, p: T -> bool)
    ensures forall x :: x in Filter(s, p) <==> x in s && p(x)
    ensures multiset(Filter(s, p)) <= multiset(s)
  {
    if s != [] {
      FilterMembers(s[1..], p);
      assert s == [s[0]] + s[1..];
    }
  }

  /** The same fact for one element. */
  lemma FilterMember<T>(s: seq<T>, p: T -> bool, x: T)
    ensures x in Filter(s, p) <==> x in s && p(x)
  {
    FilterMembers(s, p);
  }

  /** `a` can be obtained from `b` by deleting elements; order is kept. */
  predicate IsSubsequence<T(==)>(a: seq<T>, b: seq<T>)
    decreases |b|
  {
    if a == [] then true
    else if b == [] then false
    else if a[0] == b[0] then IsSubsequence(a[1..], b[1..])
    else IsSubsequence(a, b[1..])
  }

  /** A subsequence of the tail is a subsequence of the whole. */
  lemma {:induction false} SubsequenceOfTail<T>(a: seq<T>, b: seq<T>)
    requires b != [] && IsSubsequence(a, b[1..])
    ensures IsSubsequence(a, b)
    decreases |b|, 0
  {
    if a != [] && a[0] == b[0] {
      SubsequenceDropHead(a, b[1..]);
    }
  }

  /** Dropping the first element of a subsequence keeps it a subsequence. */
  lemma {:induction false} SubsequenceDropHead<T>(a: seq<T>, c: seq<T>)
    requires a != [] && IsSubsequence(a, c)
    ensures IsSubsequence(a[1..], c)
    decreases |c|, 1
  {
    if a[0] == c[0] {
      if a[1..] != [] {
        SubsequenceOfTail(a[1..], c);
      }
    } else {
      SubsequenceDropHead(a, c[1..]);
      SubsequenceOfTail(a[1..], c);
    }
  }

  lemma {:induction false} SubsequenceTransitive<T>(a: seq<T>, b: seq<T>, c: seq<T>)
    requires IsSubsequence(a, b) && IsSubsequence(b, c)
    ensures IsSubsequence(a, c)
    decreases |c|
  {
    if a != [] && b != [] && c != [] {
      if b[0] == c[0] {
        if a[0] == b[0] {
          SubsequenceTransitive(a[1..], b[1..], c[1..]);
        } else {
          SubsequenceTransitive(a, b[1..], c[1..]);
          SubsequenceOfTail(a, c);
        }
      } else {
        SubsequenceTransitive(a, b, c[1..]);
        SubsequenceOfTail(a, c);
      }
    }
  }

  /** A prefix is a subsequence. */
  lemma {:induction false} PrefixIsSubsequence<T>(s: seq<T>, prefix: seq<T>)
    requires prefix <= s
    ensures IsSubsequence(prefix, s)
  {
    if prefix != [] {
      assert prefix[0] == s[0];
      PrefixIsSubsequence(s[1..], prefix[1..]);
    }
  }

  /** Filtering yields an order-preserving subsequence of the input. */
  lemma {:induction false} FilterIsSubsequence<T>(s: seq<T>, p: T -> bool)
    ensures IsSubsequence(Filter(s, p), s)
  {
    if s != [] {
      FilterIsSubsequence(s[1..], p);
      if p(s[0]) {
        assert Filter(s, p) == [s[0]] + Filter(s[1..], p);
        assert ([s[0]] + Filter(s[1..], p))[1..] == Filter(s[1..], p);
      } else {
        assert Filter(s, p) == Filter(s[1..], p);
        SubsequenceOfTail(Filter(s[1..], p), s);
      }
    }
  }

  lemma {:induction false} FilterConcat<T>(a: seq<T>, b: seq<T>, p: T -> bool)
    ensures Filter(a + b, p) == Filter(a, p) + Filter(b, p)
  {
    if a == [] {
      assert a + b == b;
    } else {
      var head := if p(a[0]) then [a[0]] else [];
      assert (a + b)[0] == a[0];
      assert (a + b)[1..] == a[1..] + b;
      FilterConcat(a[1..], b, p);
      calc {
        Filter(a + b, p);
        head + Filter(a[1..] + b, p);
        head + (Filter(a[1..], p) + Filter(b, p));
        (head + Filter(a[1..], p)) + Filter(b, p);
      }
    }
  }

  /** Filtering the prefix one element longer appends at most that element. */
  lemma FilterSnoc<T>(s: seq<T>, i: nat, p: T -> bool)
    requires i < |s|
    ensures Filter(s[..i + 1], p) == Filter(s[..i], p) + (if p(s[i]) then [s[i]] else [])
  {
    assert s[..i + 1] == s[..i] + [s[i]];
    FilterConcat(s[..i], [s[i]], p);
  }

  /** Two predicates that agree everywhere filter alike. */
  lemma {:induction false} FilterExt<T>(s: seq<T>, p: T -> bool, q: T -> bool)
    requires forall x :: x in s ==> p(x) == q(x)
    ensures Filter(s, p) == Filter(s, q)
  {
    if s != [] {
      FilterExt(s[1..], p, q);
    }
  }

  /** Filtering twice is filtering by the conjunction. */
  lemma {:induction false} FilterCompose<T>(s: seq<T>, p: T -> bool, q: T -> bool, pq: T -> bool)
    requires forall x :: x in s ==> pq(x) == (p(x) && q(x))
    ensures Filter(Filter(s, p), q) == Filter(s, pq)
  {
    if s != [] {
      FilterCompose(s[1..], p, q, pq);
      FilterConcat(if p(s[0]) then [s[0]] else [], Filter(s[1..], p), q);
    }
  }

  /** A filter that keeps everything is the identity. */
  lemma {:induction false} FilterKeepsAll<T>(s: seq<T>, p: T -> bool)
    requires forall x :: x in s ==> p(x)
    ensures Filter(s, p) == s
  {
    if s != [] {
      FilterKeepsAll(s[1..], p);
    }
  }

  /** Weakening the predicate never drops a row: the stricter result is a
      subsequence of the weaker one. */
  lemma {:induction false} FilterMonotone<T>(s: seq<T>, p: T -> bool, q: T -> bool)
    requires forall x :: x in s && p(x) ==> q(x)
    ensures IsSubsequence(Filter(s, p), Filter(s, q))
  {
    if s != [] {
      FilterMonotone(s[1..], p, q);
      var rest := Filter(s[1..], p);
      if p(s[0]) {
        assert Filter(s, p) == [s[0]] + rest;
        assert Filter(s, q) == [s[0]] + Filter(s[1..], q);
        assert ([s[0]] + rest)[1..] == rest;
      } else if q(s[0]) {
        assert Filter(s, p) == rest;
        assert Filter(s, q) == [s[0]] + Filter(s[1..], q);
        assert ([s[0]] + Filter(s[1..], q))[1..] == Filter(s[1..], q);
        SubsequenceOfTail(rest, [s[0]] + Filter(s[1..], q));
      } else {
        assert Filter(s, p) == rest;
        assert Filter(s, q) == Filter(s[1..], q);
      }
    }
  }

  /** The first `n` elements, or all of them when there are fewer. */
  function Take<T>(s: seq<T>, n: nat): (r: seq<T>)
    ensures |r| == if |s| < n then |s| else n
    ensures r <= s
  {
    if |s| <= n then s else s[..n]
  }

  /** Where `slice(0, end)` stops on a sequence of length `len`: a negative
      end counts back from the length (and stops at 0), any other is taken
      as it is and `Take` caps it at the length. */
  function SliceEnd(len: nat, end: int): (stop: nat)
    ensures end >= 0 ==> stop == end
    ensures end < 0 ==> stop <= len && stop == if len + end < 0 then 0 else len + end
  {
    if end >= 0 then end else if len + end < 0 then 0 else len + end
  }

  /** No element occurs twice. */
  predicate NoDuplicates<T(==)>(s: seq<T>)
  {
    forall i, j :: 0 <= i < j < |s| ==> s[i] != s[j]
  }

  /** Index of the first occurrence of `x`, or -1 (JavaScript `indexOf`). */
  function IndexOf<T(==)>(s: seq<T>, x: T): (r: int)
    ensures -1 <= r < |s|
    ensures r == -1 <==> x !in s
    ensures 0 <= r ==> s[r] == x && forall j :: 0 <= j < r ==> s[j] != x
  {
    if s == [] then -1
    else if s[0] == x then 0
    else
      var k := IndexOf(s[1..], x);
      if k == -1 then -1 else k + 1
  }

  /** Inserting a new element keeps a list free of repeats. */
  lemma DistinctInsert<T>(x: seq<T>, y: seq<T>, e: T)
    requires NoDuplicates(x + y) && e !in x + y
    ensures NoDuplicates(x + [e] + y)
  {
    var s := x + [e] + y;
    var xy := x + y;
    forall i, j | 0 <= i < j < |s| ensures s[i] != s[j] {
      if i < |x| {
        if j < |x| {
          assert s[i] == xy[i] && s[j] == xy[j];
        } else if j == |x| {
          assert s[i] == xy[i];
        } else {
          assert s[i] == xy[i] && s[j] == xy[j - 1];
        }
      } else if i == |x| {
        assert s[j] == xy[j - 1];
      } else {
        assert s[i] == xy[i - 1] && s[j] == xy[j - 1];
      }
    }
  }

  /** Removing an element keeps a list free of repeats, and the removed
      element then no longer occurs. */
  lemma DistinctRemove<T>(x: seq<T>, y: seq<T>, e: T)
    requires NoDuplicates(x + [e] + y)
    ensures NoDuplicates(x + y) && e !in x + y
  {
    var s := x + [e] + y;
    var xy := x + y;
    forall i, j | 0 <= i < j < |xy| ensures xy[i] != xy[j] {
      var si := if i < |x| then i else i + 1;
      var sj := if j < |x| then j else j + 1;
      assert xy[i] == s[si] && xy[j] == s[sj];
    }
    forall k | 0 <= k < |xy| ensures xy[k] != e {
      var sk := if k < |x| then k else k + 1;
      assert xy[k] == s[sk] && s[|x|] == e;
    }
  }

  /** A subsequence of a list without repeats has none either. */
  lemma {:induction false} SubsequenceKeepsDistinct<T>(a: seq<T>, b: seq<T>)
    requires IsSubsequence(a, b) && NoDuplicates(b)
    ensures NoDuplicates(a)
    decreases |b|
  {
    if a != [] && b != [] {
      if a[0] == b[0] {
        SubsequenceKeepsDistinct(a[1..], b[1..]);
        SubsequenceMembers(a[1..], b[1..]);
        forall j | 0 < j < |a| ensures a[0] != a[j] {
          assert a[j] == a[1..][j - 1];
          assert a[j] in b[1..];
        }
        forall i, j | 0 <= i < j < |a| ensures a[i] != a[j] {
          if i > 0 {
            assert a[i] == a[1..][i - 1] && a[j] == a[1..][j - 1];
          }
        }
      } else {
        SubsequenceKeepsDistinct(a, b[1..]);
      }
    }
  }

  lemma {:induction false} SubsequenceMembers<T>(a: seq<T>, b: seq<T>)
    requires IsSubsequence(a, b)
    ensures forall x :: x in a ==> x in b
    decreases |b|
  {
    if a != [] && b != [] {
      if a[0] == b[0] {
        SubsequenceMembers(a[1..], b[1..]);
        assert a == [a[0]] + a[1..];
      } else {
        SubsequenceMembers(a, b[1..]);
      }
    }
  }

  /** Filtering a list without repeats gives a list without repeats. */
  lemma FilterKeepsDistinct<T>(s: seq<T>, p: T -> bool)
    requires NoDuplicates(s)
    ensures NoDuplicates(Filter(s, p))
  {
    FilterIsSubsequence(s, p);
    SubsequenceKeepsDistinct(Filter(s, p), s);
  }

  /** The first position holding `x` is its index. */
  lemma IndexOfFirst<T>(s: seq<T>, k: nat, x: T)
    requires k < |s| && s[k] == x && forall m :: 0 <= m < k ==> s[m] != x
    ensures IndexOf(s, x) == k
  {
  }

  /** Removing one element shifts the positions after it down by one. */
  lemma IndexAfterRemoval<T>(s: seq<T>, i: nat, x: T)
    requires i < |s| && x in s && s[i] != x
    ensures var j := IndexOf(s, x);
      IndexOf(s[..i] + s[i + 1..], x) == if j > i then j - 1 else j
  {
    var j := IndexOf(s, x);
    if j > i {
      FirstAfterRemoval(s, i, j, x);
    } else {
      FirstBeforeRemoval(s, i, j, x);
    }
  }

  lemma FirstAfterRemoval<T>(s: seq<T>, i: nat, j: nat, x: T)
    requires i < j < |s| && s[j] == x && forall m :: 0 <= m < j ==> s[m] != x
    ensures IndexOf(s[..i] + s[i + 1..], x) == j - 1
  {
    var rest := s[..i] + s[i + 1..];
    assert rest[j - 1] == s[j];
    forall m | 0 <= m < j - 1 ensures rest[m] != x {
      assert rest[m] == if m < i then s[m] else s[m + 1];
    }
    IndexOfFirst(rest, j - 1, x);
  }

  lemma FirstBeforeRemoval<T>(s: seq<T>, i: nat, j: nat, x: T)
    requires j < i < |s| && s[j] == x && forall m :: 0 <= m < j ==> s[m] != x
    ensures IndexOf(s[..i] + s[i + 1..], x) == j
  {
    var rest := s[..i] + s[i + 1..];
    assert rest[j] == s[j];
    forall m | 0 <= m < j ensures rest[m] != x {
      assert rest[m] == s[m];
    }
    IndexOfFirst(rest, j, x);
  }

  /** Filtering out one element that occurs once, keeping the rest. */
  lemma FilterOutOne<T>(x: seq<T>, e: T, y: seq<T>, p: T -> bool)
    requires !p(e) && forall z :: z in x + y ==> p(z)
    ensures Filter(x + [e] + y, p) == x + y
  {
    FilterConcat(x + [e], y, p);
    FilterConcat(x, [e], p);
    assert Filter([e], p) == [] by {
      assert [e][1..] == [];
    }
    forall z | z in x ensures p(z) {
      assert z in x + y;
    }
    forall z | z in y ensures p(z) {
      assert z in x + y;
    }
    FilterKeepsAll(x, p);
    FilterKeepsAll(y, p);
  }

  /** A filter that keeps as many elements as it is given keeps all of them. */
  lemma {:induction false} FilterFullLength<T>(s: seq<T>, p: T -> bool)
    ensures |Filter(s, p)| == |s| ==> forall x :: x in s ==> p(x)
  {
    if s != [] {
      FilterFullLength(s[1..], p);
      assert s == [s[0]] + s[1..];
    }
  }

  /** Every element is kept by `p` or by its negation, never both. */
  lemma {:induction false} FilterSplitLength<T>(s: seq<T>, p: T -> bool, q: T -> bool)
    requires forall x :: x in s ==> q(x) == !p(x)
    ensures |Filter(s, p)| + |Filter(s, q)| == |s|
  {
    if s != [] {
      FilterSplitLength(s[1..], p, q);
    }
  }

  /** No two elements share a key. */
  predicate DistinctBy<T, K(==)>(s: seq<T>, key: T -> K)
  {
    forall i, j :: 0 <= i < j < |s| ==> key(s[i]) != key(s[j])
  }

  /** Filtering keeps keys distinct. */
  lemma {:induction false} FilterKeepsDistinctBy<T, K>(s: seq<T>, p: T -> bool, key: T -> K)
    requires DistinctBy(s, key)
    ensures DistinctBy(Filter(s, p), key)
  {
    if s != [] {
      FilterKeepsDistinctBy(s[1..], p, key);
      var rest := Filter(s[1..], p);
      FilterMembers(s[1..], p);
      if p(s[0]) {
        var r := [s[0]] + rest;
        forall i, j | 0 <= i < j < |r| ensures key(r[i]) != key(r[j]) {
          if i == 0 {
            var y := rest[j - 1];
            assert y in rest;
            FilterMember(s[1..], p, y);
            var k :| 0 <= k < |s| - 1 && s[1..][k] == y;
            assert s[k + 1] == r[j];
          } else {
            assert r[i] == rest[i - 1] && r[j] == rest[j - 1];
          }
        }
      }
    }
  }
}
