/**
 * An insertion sort parameterised by a three-way comparator, standing in for
 * JavaScript's `Array.prototype.sort`. The model proves that it returns a
 * permutation, that the result is ordered when the comparator is a total
 * preorder, and that it keeps the input order when every pair ties; that
 * tied elements keep their relative order in general is not proved.
 */
module StableSort {

  /** Every earlier element compares no greater than every later one. */
  ghost predicate SortedBy<T>(s: seq<T>, cmp: (T, T) -> int) {
    forall i, j :: 0 <= i < j < |s| ==> cmp(s[i], s[j]) <= 0
  }

  /**
   * On the values in `u`, `cmp(a, b) <= 0` is a total preorder: any two values
   * are related one way or the other, and the relation is transitive.
   */
  ghost predicate TotalPreorderOn<T>(u: seq<T>, cmp: (T, T) -> int) {
    && (forall a, b :: a in u && b in u ==> cmp(a, b) <= 0 || cmp(b, a) <= 0)
    && (forall a, b, c :: a in u && b in u && c in u && cmp(a, b) <= 0 && cmp(b, c) <= 0
          ==> cmp(a, c) <= 0)
  }

  /** Insert `x` before the first element of `s` that compares greater than it. */
  function Insert<T>(x: T, s: seq<T>, cmp: (T, T) -> int): (r: seq<T>)
    ensures |r| == |s| + 1
    ensures multiset(r) == multiset(s) + multiset{x}
  {
    if s == [] then [x]
    else if cmp(s[0], x) > 0 then [x] + s
    else
      assert s == [s[0]] + s[1..];
      [s[0]] + Insert(x, s[1..], cmp)
  }

  /** A new, stably sorted sequence; the input is not changed. */
  function Sort<T>(xs: seq<T>, cmp: (T, T) -> int): (r: seq<T>)
    ensures |r| == |xs|
    ensures multiset(r) == multiset(xs)
  {
    if xs == [] then []
    else
      var n := |xs| - 1;
      assert xs == xs[..n] + [xs[n]];
      Insert(xs[n], Sort(xs[..n], cmp), cmp)
  }

  /** The first `n` elements, or all of them when there are fewer (JavaScript `slice(0, n)`). */
  function Take<T>(s: seq<T>, n: nat): (r: seq<T>)
    ensures |r| == if |s| < n then |s| else n
    ensures r <= s
    ensures multiset(r) <= multiset(s)
  {
    if |s| <= n then s
    else
      assert s == s[..n] + s[n..];
      s[..n]
  }

  /** Putting a lower bound of a sorted sequence in front keeps it sorted. */
  lemma ConsSorted<T>(y: T, t: seq<T>, cmp: (T, T) -> int)
    requires SortedBy(t, cmp)
    requires forall j :: 0 <= j < |t| ==> cmp(y, t[j]) <= 0
    ensures SortedBy([y] + t, cmp)
  {
    var r := [y] + t;
    forall i, j | 0 <= i < j < |r|
      ensures cmp(r[i], r[j]) <= 0
    {
      assert r[j] == t[j - 1];
      if i > 0 {
        assert r[i] == t[i - 1];
      }
    }
  }

  /** A lower bound of `x` and of every element of `s` bounds `Insert(x, s)`. */
  lemma {:induction false} InsertBoundedBelow<T>(y: T, x: T, s: seq<T>, cmp: (T, T) -> int)
    requires cmp(y, x) <= 0
    requires forall i :: 0 <= i < |s| ==> cmp(y, s[i]) <= 0
    ensures forall j :: 0 <= j < |Insert(x, s, cmp)| ==> cmp(y, Insert(x, s, cmp)[j]) <= 0
  {
    if s != [] && cmp(s[0], x) <= 0 {
      InsertBoundedBelow(y, x, s[1..], cmp);
      var r := Insert(x, s, cmp);
      assert r == [s[0]] + Insert(x, s[1..], cmp);
      forall j | 0 <= j < |r|
        ensures cmp(y, r[j]) <= 0
      {
        if j > 0 {
          assert r[j] == Insert(x, s[1..], cmp)[j - 1];
        }
      }
    }
  }

  /** Inserting into a sorted sequence keeps it sorted. */
  lemma {:induction false} InsertSorted<T>(x: T, s: seq<T>, cmp: (T, T) -> int, u: seq<T>)
    requires TotalPreorderOn(u, cmp)
    requires x in u && forall i :: 0 <= i < |s| ==> s[i] in u
    requires SortedBy(s, cmp)
    ensures SortedBy(Insert(x, s, cmp), cmp)
  {
    if s == [] {
    } else if cmp(s[0], x) > 0 {
      assert cmp(x, s[0]) <= 0;
      forall j | 0 <= j < |s|
        ensures cmp(x, s[j]) <= 0
      {
        if j > 0 {
          assert cmp(s[0], s[j]) <= 0;
        }
      }
      ConsSorted(x, s, cmp);
    } else {
      var tail := s[1..];
      InsertSorted(x, tail, cmp, u);
      forall j | 0 <= j < |tail|
        ensures cmp(s[0], tail[j]) <= 0
      {
        assert tail[j] == s[j + 1];
      }
      InsertBoundedBelow(s[0], x, tail, cmp);
      ConsSorted(s[0], Insert(x, tail, cmp), cmp);
    }
  }

  /** Under a total preorder the result of `Sort` is sorted. */
  lemma {:induction false} SortSorted<T>(xs: seq<T>, cmp: (T, T) -> int)
    requires TotalPreorderOn(xs, cmp)
    ensures SortedBy(Sort(xs, cmp), cmp)
  {
    if xs != [] {
      var n := |xs| - 1;
      var prefix := xs[..n];
      assert TotalPreorderOn(prefix, cmp) by {
        forall a | a in prefix ensures a in xs {
          var k :| 0 <= k < |prefix| && prefix[k] == a;
          assert xs[k] == a;
        }
      }
      SortSorted(prefix, cmp);
      var sorted := Sort(prefix, cmp);
      forall i | 0 <= i < |sorted|
        ensures sorted[i] in xs
      {
        assert sorted[i] in multiset(prefix);
        var k :| 0 <= k < |prefix| && prefix[k] == sorted[i];
        assert xs[k] == sorted[i];
      }
      InsertSorted(xs[n], sorted, cmp, xs);
    }
  }

  /** When every pair compares equal, inserting appends. */
  lemma {:induction false} InsertAllTied<T>(x: T, s: seq<T>, cmp: (T, T) -> int)
    requires forall i :: 0 <= i < |s| ==> cmp(s[i], x) == 0
    ensures Insert(x, s, cmp) == s + [x]
  {
    if s != [] {
      InsertAllTied(x, s[1..], cmp);
      assert s == [s[0]] + s[1..];
    }
  }

  /** Stability: when every pair compares equal, sorting keeps the input order. */
  lemma {:induction false} SortAllTied<T>(xs: seq<T>, cmp: (T, T) -> int)
    requires forall i, j :: 0 <= i < |xs| && 0 <= j < |xs| ==> cmp(xs[i], xs[j]) == 0
    ensures Sort(xs, cmp) == xs
  {
    if xs != [] {
      var n := |xs| - 1;
      SortAllTied(xs[..n], cmp);
      InsertAllTied(xs[n], xs[..n], cmp);
      assert xs == xs[..n] + [xs[n]];
    }
  }
}
