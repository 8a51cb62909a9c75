/**
 * The `useSearch` hook (src/lib/hooks/use-search.ts): the live query, the
 * debounced copy the filter actually reads, and the case-insensitive
 * substring filter over one field.
 */
module SearchHook {
  import opened Records
  import Text
  import Sequences

  /**
   * `query` follows every keystroke; `debouncedQuery` catches up only when the
   * debounce timer fires (the timer itself is not modelled).
   */
  datatype SearchState = SearchState(query: string, debouncedQuery: string)

  function Init(): (st: SearchState)
    ensures st.query == "" && st.debouncedQuery == ""
  {
    SearchState("", "")
  }

  /** `setQuery`: only the live query changes. */
  function SetQuery(st: SearchState, q: string): (r: SearchState)
    ensures r.query == q && r.debouncedQuery == st.debouncedQuery
  {
    st.(query := q)
  }

  /** The debounce timer fires: the filter now sees the latest query. */
  function Settle(st: SearchState): (r: SearchState)
    ensures r.query == st.query && r.debouncedQuery == st.query
  {
    st.(debouncedQuery := st.query)
  }

  /** The item's field is a string containing the query, ignoring ASCII case. */
  predicate Matches(item: Record, key: string, q: string) {
    var v := Lookup(item, key);
    v.Str? && Text.Contains(Text.Lower(v.s), Text.Lower(q))
  }

  /** `filteredItems`: the items whose field matches the debounced query. */
  function FilteredItems(items: seq<Record>, key: string, st: SearchState): (r: seq<Record>)
    ensures forall i :: 0 <= i < |r| ==> r[i] in items && Matches(r[i], key, st.debouncedQuery)
    ensures forall i :: 0 <= i < |items| && Matches(items[i], key, st.debouncedQuery) ==> items[i] in r
    ensures forall x :: multiset(r)[x] == if Matches(x, key, st.debouncedQuery) then multiset(items)[x] else 0
  {
    forall x
      ensures multiset(Sequences.Filter(items, y => Matches(y, key, st.debouncedQuery)))[x]
        == if Matches(x, key, st.debouncedQuery) then multiset(items)[x] else 0
    {
      Sequences.FilterCount(items, y => Matches(y, key, st.debouncedQuery), x);
    }
    Sequences.Filter(items, x => Matches(x, key, st.debouncedQuery))
  }

  /** The result keeps the items' relative order. */
  lemma FilteredIsSubsequence(items: seq<Record>, key: string, st: SearchState)
    ensures Sequences.IsSubsequence(FilteredItems(items, key, st), items)
  {
    Sequences.FilterIsSubsequence(items, x => Matches(x, key, st.debouncedQuery));
  }

  /** An item whose field is not a string is never kept, whatever the query. */
  lemma NonStringNeverKept(items: seq<Record>, key: string, st: SearchState, item: Record)
    requires !Lookup(item, key).Str?
    ensures item !in FilteredItems(items, key, st)
  {
  }

  /** With an empty debounced query every string-valued item is kept, in order. */
  lemma EmptyQueryKeepsStrings(items: seq<Record>, key: string, st: SearchState)
    requires st.debouncedQuery == ""
    requires forall i :: 0 <= i < |items| ==> Lookup(items[i], key).Str?
    ensures FilteredItems(items, key, st) == items
  {
    forall i | 0 <= i < |items|
      ensures Matches(items[i], key, "")
    {
      Text.ContainsEmpty(Text.Lower(Lookup(items[i], key).s));
    }
    Sequences.FilterAll(items, x => Matches(x, key, st.debouncedQuery));
  }

  /** Typing does not re-filter: only the debounced query matters. */
  lemma TypingDoesNotRefilter(items: seq<Record>, key: string, st: SearchState, q: string)
    ensures FilteredItems(items, key, SetQuery(st, q)) == FilteredItems(items, key, st)
  {
  }

  /** Extending the query never enlarges the result; what remains keeps its order. */
  lemma LongerQueryNarrows(items: seq<Record>, key: string, q: string, more: string)
    ensures Sequences.IsSubsequence(
      FilteredItems(items, key, SearchState(q + more, q + more)),
      FilteredItems(items, key, SearchState(q, q)))
  {
    forall i | 0 <= i < |items| && Matches(items[i], key, q + more)
      ensures Matches(items[i], key, q)
    {
      var s := Text.Lower(Lookup(items[i], key).s);
      Text.LowerConcat(q, more);
      Text.ContainsPrefixOfQuery(s, Text.Lower(q), Text.Lower(more));
    }
    Sequences.FilterMonotone(items, x => Matches(x, key, q + more), x => Matches(x, key, q));
  }
}
