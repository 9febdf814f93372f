/** Sorting by a strict order, as `sort.Slice` does when no two elements tie. */
module Sorting {

  ghost predicate StrictOrder<T(!new)>(less: (T, T) -> bool) {
    && (forall x, y :: !(less(x, y) && less(y, x)))
    && (forall x, y, z :: less(x, y) && less(y, z) ==> less(x, z))
  }

  /** Every two elements are ordered one way or the other, so none occurs twice. */
  ghost predicate Comparable<T>(s: seq<T>, less: (T, T) -> bool) {
    forall i, j | 0 <= i < j < |s| :: less(s[i], s[j]) || less(s[j], s[i])
  }

  ghost predicate Sorted<T>(s: seq<T>, less: (T, T) -> bool) {
    forall i, j | 0 <= i < j < |s| :: less(s[i], s[j])
  }

  function Insert<T>(x: T, s: seq<T>, less: (T, T) -> bool): seq<T> {
    if s == [] || less(x, s[0]) then [x] + s else [s[0]] + Insert(x, s[1..], less)
  }

  function Sort<T>(s: seq<T>, less: (T, T) -> bool): seq<T> {
    if s == [] then [] else Insert(s[0], Sort(s[1..], less), less)
  }

  function Map<T, U>(f: T -> U, s: seq<T>): (r: seq<U>)
    ensures |r| == |s| && forall i | 0 <= i < |s| :: r[i] == f(s[i])
  {
    if s == [] then [] else [f(s[0])] + Map(f, s[1..])
  }

  /** No two elements have the same key. */
  predicate Distinct<T, K(==)>(s: seq<T>, key: T -> K) {
    forall i, j | 0 <= i < j < |s| :: key(s[i]) != key(s[j])
  }

  ghost function KeySet<T, K>(s: seq<T>, key: T -> K): set<K> { set x <- s :: key(x) }

  /** A sequence without its element at `k`. */
  function Without<T>(s: seq<T>, k: nat): seq<T>
    requires k < |s|
  {
    s[..k] + s[k + 1..]
  }

  lemma WithoutRemoves<T>(s: seq<T>, k: nat)
    requires k < |s|
    ensures multiset(s) == multiset(Without(s, k)) + multiset{s[k]}
    ensures multiset(Without(s, k)) == multiset(s) - multiset{s[k]}
  {
    assert s == s[..k] + ([s[k]] + s[k + 1..]);
  }

  lemma MapWithout<T, U>(f: T -> U, s: seq<T>, k: nat)
    requires k < |s|
    ensures Map(f, Without(s, k)) == Without(Map(f, s), k)
  {
    hide Map;
    var a, b := Map(f, Without(s, k)), Without(Map(f, s), k);
    assert |a| == |b|;
    forall i | 0 <= i < |a| ensures a[i] == b[i] {
      assert Without(s, k)[i] == if i < k then s[i] else s[i + 1];
    }
  }

  /** The images of rearranged elements are the rearranged images. */
  lemma {:induction false} MapPermutes<T, U>(f: T -> U, a: seq<T>, b: seq<T>)
    requires multiset(a) == multiset(b)
    ensures multiset(Map(f, a)) == multiset(Map(f, b))
    decreases |a|
  {
    hide Map;
    assert |a| == |multiset(a)| == |multiset(b)| == |b|;
    if a != [] {
      assert a[0] in multiset(b);
      var k :| 0 <= k < |b| && b[k] == a[0];
      WithoutRemoves(a, 0);
      WithoutRemoves(b, k);
      MapPermutes(f, Without(a, 0), Without(b, k));
      MapWithout(f, a, 0);
      MapWithout(f, b, k);
      WithoutRemoves(Map(f, a), 0);
      WithoutRemoves(Map(f, b), k);
    }
  }

  lemma DistinctAppend<T, K>(s: seq<T>, x: T, key: T -> K)
    ensures KeySet(s + [x], key) == KeySet(s, key) + {key(x)}
    ensures Distinct(s + [x], key) <==> Distinct(s, key) && key(x) !in KeySet(s, key)
  {
    var more := s + [x];
    if Distinct(more, key) {
      forall i, j | 0 <= i < j < |s| ensures key(s[i]) != key(s[j]) {
        assert key(more[i]) != key(more[j]);
      }
      forall i | 0 <= i < |s| ensures key(s[i]) != key(x) {
        assert key(more[i]) != key(more[|s|]);
      }
    }
  }

  /** Distinctness is a matter of counting keys. */
  lemma {:induction false} DistinctByCount<T, K>(s: seq<T>, key: T -> K)
    ensures |KeySet(s, key)| <= |s|
    ensures Distinct(s, key) <==> |KeySet(s, key)| == |s|
  {
    if s == [] {
      assert KeySet(s, key) == {};
    } else {
      hide Distinct;
      var last := |s| - 1;
      DistinctByCount(s[..last], key);
      DistinctAppend(s[..last], s[last], key);
      assert s == s[..last] + [s[last]];
    }
  }

  /** So it does not depend on the order. */
  lemma DistinctPermutes<T, K>(a: seq<T>, b: seq<T>, key: T -> K)
    requires multiset(a) == multiset(b)
    ensures Distinct(a, key) <==> Distinct(b, key)
  {
    hide Distinct;
    assert |a| == |multiset(a)| == |multiset(b)| == |b|;
    assert forall x :: x in a <==> x in multiset(a);
    assert forall x :: x in b <==> x in multiset(b);
    assert KeySet(a, key) == KeySet(b, key);
    DistinctByCount(a, key);
    DistinctByCount(b, key);
  }

  lemma PrefixIsDistinct<T, K>(s: seq<T>, n: nat, key: T -> K)
    requires n <= |s|
    ensures Distinct(s, key) ==> Distinct(s[..n], key)
  {
  }

  lemma {:induction false} InsertAdds<T>(x: T, s: seq<T>, less: (T, T) -> bool)
    ensures multiset(Insert(x, s, less)) == multiset(s) + multiset{x}
  {
    if s != [] && !less(x, s[0]) {
      InsertAdds(x, s[1..], less);
      assert s == [s[0]] + s[1..];
    }
  }

  lemma {:induction false} SortPermutes<T>(s: seq<T>, less: (T, T) -> bool)
    ensures multiset(Sort(s, less)) == multiset(s)
    ensures |Sort(s, less)| == |s|
  {
    if s != [] {
      SortPermutes(s[1..], less);
      InsertAdds(s[0], Sort(s[1..], less), less);
      assert s == [s[0]] + s[1..];
    }
    assert |multiset(Sort(s, less))| == |multiset(s)|;
  }

  lemma {:induction false} InsertSorts<T(!new)>(x: T, s: seq<T>, less: (T, T) -> bool)
    requires StrictOrder(less) && Sorted(s, less)
    requires forall y <- s :: less(x, y) || less(y, x)
    ensures Sorted(Insert(x, s, less), less)
  {
    if s != [] && !less(x, s[0]) {
      var rest := Insert(x, s[1..], less);
      InsertSorts(x, s[1..], less);
      InsertAdds(x, s[1..], less);
      forall j | 0 <= j < |rest| ensures less(s[0], rest[j]) {
        assert rest[j] in multiset(rest);
      }
    } else if s != [] {
      forall j | 0 < j < |s| ensures less(x, s[j]) {
        assert less(x, s[0]) && less(s[0], s[j]);
      }
    }
  }

  lemma {:induction false} SortSorts<T(!new)>(s: seq<T>, less: (T, T) -> bool)
    requires StrictOrder(less) && Comparable(s, less)
    ensures Sorted(Sort(s, less), less)
  {
    if s != [] {
      var rest := s[1..];
      assert Comparable(rest, less) by {
        forall i, j | 0 <= i < j < |rest| ensures less(rest[i], rest[j]) || less(rest[j], rest[i]) {
          assert rest[i] == s[i + 1] && rest[j] == s[j + 1];
        }
      }
      SortSorts(rest, less);
      SortPermutes(rest, less);
      forall y <- Sort(rest, less) ensures less(s[0], y) || less(y, s[0]) {
        assert y in multiset(rest);
      }
      InsertSorts(s[0], Sort(rest, less), less);
    }
  }

  lemma FirstIsLeast<T>(s: seq<T>, x: T, less: (T, T) -> bool)
    requires Sorted(s, less) && x in s
    ensures x == s[0] || less(s[0], x)
  {
  }

  lemma FirstsAgree<T(!new)>(a: seq<T>, b: seq<T>, less: (T, T) -> bool)
    requires StrictOrder(less) && Sorted(a, less) && Sorted(b, less)
    requires multiset(a) == multiset(b) && a != [] && b != []
    ensures a[0] == b[0]
  {
    assert a[0] in multiset(b) && b[0] in multiset(a);
    FirstIsLeast(a, b[0], less);
    FirstIsLeast(b, a[0], less);
  }

  lemma WithoutFirst<T(!new)>(s: seq<T>, less: (T, T) -> bool)
    requires s != [] && Sorted(s, less)
    ensures Sorted(s[1..], less) && multiset(s[1..]) == multiset(s) - multiset{s[0]}
  {
    assert s == [s[0]] + s[1..];
  }

  /** A sorted arrangement of given elements is the only one. */
  lemma {:induction false} SortedIsUnique<T(!new)>(a: seq<T>, b: seq<T>, less: (T, T) -> bool)
    requires StrictOrder(less) && Sorted(a, less) && Sorted(b, less)
    requires multiset(a) == multiset(b)
    ensures a == b
  {
    hide StrictOrder, Sorted;
    assert |a| == |multiset(a)| && |b| == |multiset(b)|;
    if a != [] {
      FirstsAgree(a, b, less);
      WithoutFirst(a, less);
      WithoutFirst(b, less);
      SortedIsUnique(a[1..], b[1..], less);
      assert a == [a[0]] + a[1..] && b == [b[0]] + b[1..];
    }
  }

  lemma SortOfSorted<T(!new)>(s: seq<T>, less: (T, T) -> bool)
    requires StrictOrder(less) && Sorted(s, less)
    ensures Sort(s, less) == s
  {
    SortSorts(s, less);
    SortPermutes(s, less);
    SortedIsUnique(Sort(s, less), s, less);
  }

  /** The order in which elements arrive does not matter. */
  lemma SortIsCanonical<T(!new)>(a: seq<T>, b: seq<T>, less: (T, T) -> bool)
    requires StrictOrder(less) && Comparable(a, less) && Comparable(b, less)
    requires multiset(a) == multiset(b)
    ensures Sort(a, less) == Sort(b, less)
  {
    SortSorts(a, less);
    SortSorts(b, less);
    SortPermutes(a, less);
    SortPermutes(b, less);
    SortedIsUnique(Sort(a, less), Sort(b, less), less);
  }
}
