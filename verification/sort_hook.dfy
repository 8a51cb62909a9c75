/**
 * The `useSort` hook (src/lib/hooks/use-sort.ts): a sort key and direction,
 * a typed comparator, the sorted copy of the items, and the header-click
 * toggle rule.
 */
module SortHook {
  import opened Records
  import Text
  import StableSort

  datatype Direction = Asc | Desc

  datatype SortState = SortState(sortKey: string, direction: Direction)

  /** The hook's initial state; the direction defaults to ascending. */
  function Init(initialSortKey: string, initialDirection: Direction := Asc): (st: SortState)
    ensures st.sortKey == initialSortKey && st.direction == initialDirection
  {
    SortState(initialSortKey, initialDirection)
  }

  /**
   * The comparator: strings by character order (standing in for
   * `localeCompare`), numbers by difference, each reversed for a descending
   * sort; any other pair compares equal.
   */
  function Compare(a: Record, b: Record, key: string, direction: Direction): (r: int)
    ensures Lookup(a, key).Str? && Lookup(b, key).Str? ==>
      && (r == 0 <==> Lookup(a, key).s == Lookup(b, key).s)
      && (r < 0 <==> if direction == Asc then Text.LexCompare(Lookup(a, key).s, Lookup(b, key).s) < 0
                     else Text.LexCompare(Lookup(a, key).s, Lookup(b, key).s) > 0)
    ensures Lookup(a, key).Num? && Lookup(b, key).Num? ==>
      && (r == 0 <==> Lookup(a, key).n == Lookup(b, key).n)
      && (r < 0 <==> if direction == Asc then Lookup(a, key).n < Lookup(b, key).n
                     else Lookup(a, key).n > Lookup(b, key).n)
    ensures !(Lookup(a, key).Str? && Lookup(b, key).Str?) && !(Lookup(a, key).Num? && Lookup(b, key).Num?) ==>
      r == 0
  {
    var av, bv := Lookup(a, key), Lookup(b, key);
    if av.Str? && bv.Str? then
      Text.LexCompareAntisymmetric(av.s, bv.s);
      (if direction == Asc then Text.LexCompare(av.s, bv.s) else Text.LexCompare(bv.s, av.s))
    else if av.Num? && bv.Num? then
      (if direction == Asc then av.n - bv.n else bv.n - av.n)
    else 0
  }

  /** The comparator handed to the sort; swapping its arguments negates it. */
  function Comparator(key: string, direction: Direction): (cmp: (Record, Record) -> int)
    ensures forall x, y :: cmp(x, y) == -cmp(y, x)
  {
    assert forall x, y :: Compare(x, y, key, direction) == -Compare(y, x, key, direction) by {
      forall x, y
        ensures Compare(x, y, key, direction) == -Compare(y, x, key, direction)
      {
        if Lookup(x, key).Str? && Lookup(y, key).Str? {
          Text.LexCompareAntisymmetric(Lookup(x, key).s, Lookup(y, key).s);
        }
      }
    }
    (a, b) => Compare(a, b, key, direction)
  }

  /** A descending comparison is the ascending one with its arguments swapped. */
  lemma DescIsSwappedAsc(a: Record, b: Record, key: string)
    ensures Compare(a, b, key, Desc) == Compare(b, a, key, Asc)
  {
  }

  /** Pairs that are not both strings or both numbers compare equal. */
  lemma MixedPairsTie(a: Record, b: Record, key: string, direction: Direction)
    requires !(Lookup(a, key).Str? && Lookup(b, key).Str?)
    requires !(Lookup(a, key).Num? && Lookup(b, key).Num?)
    ensures Compare(a, b, key, direction) == 0
  {
  }

  /** `sortedItems`: a sorted copy; the hook's `items` are not modified. */
  function SortedItems(items: seq<Record>, st: SortState): (r: seq<Record>)
    ensures |r| == |items|
    ensures multiset(r) == multiset(items)
  {
    StableSort.Sort(items, Comparator(st.sortKey, st.direction))
  }

  predicate AllStrings(items: seq<Record>, key: string) {
    forall i :: 0 <= i < |items| ==> Lookup(items[i], key).Str?
  }

  predicate AllNumbers(items: seq<Record>, key: string) {
    forall i :: 0 <= i < |items| ==> Lookup(items[i], key).Num?
  }

  /** On string keys, or on number keys, the comparator is a total preorder. */
  lemma ComparatorIsPreorder(items: seq<Record>, key: string, direction: Direction)
    requires AllStrings(items, key) || AllNumbers(items, key)
    ensures StableSort.TotalPreorderOn(items, Comparator(key, direction))
  {
    var cmp := Comparator(key, direction);
    forall a, b | a in items && b in items
      ensures cmp(a, b) <= 0 || cmp(b, a) <= 0
    {
      if Lookup(a, key).Str? && Lookup(b, key).Str? {
        Text.LexCompareAntisymmetric(Lookup(a, key).s, Lookup(b, key).s);
      }
    }
    forall a, b, c | a in items && b in items && c in items && cmp(a, b) <= 0 && cmp(b, c) <= 0
      ensures cmp(a, c) <= 0
    {
      var av, bv, cv := Lookup(a, key), Lookup(b, key), Lookup(c, key);
      if av.Str? && bv.Str? && cv.Str? {
        if direction == Asc {
          Text.LexCompareTransitive(av.s, bv.s, cv.s);
        } else {
          Text.LexCompareTransitive(cv.s, bv.s, av.s);
        }
      }
    }
  }

  /**
   * When every key is a string, an ascending sort leaves the keys in
   * non-decreasing collation order and a descending sort in non-increasing
   * order; the result is a permutation of the input.
   */
  lemma SortedStringKeys(items: seq<Record>, st: SortState)
    requires AllStrings(items, st.sortKey)
    ensures var r := SortedItems(items, st);
      forall i, j :: 0 <= i < j < |r| ==>
        Lookup(r[i], st.sortKey).Str? && Lookup(r[j], st.sortKey).Str? &&
        (if st.direction == Asc
         then Text.LexCompare(Lookup(r[i], st.sortKey).s, Lookup(r[j], st.sortKey).s) <= 0
         else Text.LexCompare(Lookup(r[j], st.sortKey).s, Lookup(r[i], st.sortKey).s) <= 0)
  {
    var r := SortedItems(items, st);
    ComparatorIsPreorder(items, st.sortKey, st.direction);
    StableSort.SortSorted(items, Comparator(st.sortKey, st.direction));
    forall i | 0 <= i < |r|
      ensures Lookup(r[i], st.sortKey).Str?
    {
      assert r[i] in multiset(items);
    }
  }

  /**
   * When every key is a number, an ascending sort leaves the keys
   * non-decreasing and a descending sort non-increasing.
   */
  lemma SortedNumberKeys(items: seq<Record>, st: SortState)
    requires AllNumbers(items, st.sortKey)
    ensures var r := SortedItems(items, st);
      forall i, j :: 0 <= i < j < |r| ==>
        Lookup(r[i], st.sortKey).Num? && Lookup(r[j], st.sortKey).Num? &&
        (if st.direction == Asc
         then Lookup(r[i], st.sortKey).n <= Lookup(r[j], st.sortKey).n
         else Lookup(r[i], st.sortKey).n >= Lookup(r[j], st.sortKey).n)
  {
    var r := SortedItems(items, st);
    ComparatorIsPreorder(items, st.sortKey, st.direction);
    StableSort.SortSorted(items, Comparator(st.sortKey, st.direction));
    forall i | 0 <= i < |r|
      ensures Lookup(r[i], st.sortKey).Num?
    {
      assert r[i] in multiset(items);
    }
  }

  /**
   * When no key is a string or a number, every pair compares equal and the
   * sort returns the items in their input order.
   */
  lemma UnorderableKeysKeepOrder(items: seq<Record>, st: SortState)
    requires forall i :: 0 <= i < |items| ==>
      !Lookup(items[i], st.sortKey).Str? && !Lookup(items[i], st.sortKey).Num?
    ensures SortedItems(items, st) == items
  {
    StableSort.SortAllTied(items, Comparator(st.sortKey, st.direction));
  }

  /**
   * `toggleSort`: clicking the active key flips the direction; clicking
   * another key selects it in ascending order.
   */
  function ToggleSort(st: SortState, key: string): (r: SortState)
    ensures r.sortKey == key
    ensures key == st.sortKey ==> r.direction != st.direction
    ensures key != st.sortKey ==> r.direction == Asc
  {
    if key == st.sortKey then
      st.(direction := if st.direction == Asc then Desc else Asc)
    else
      SortState(key, Asc)
  }

  /** Clicking the same header twice restores the original order. */
  lemma ToggleSameKeyTwice(st: SortState)
    ensures ToggleSort(ToggleSort(st, st.sortKey), st.sortKey) == st
  {
  }
}
