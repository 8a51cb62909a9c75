/**
 * The expandable navigation groups of the sidebar
 * (src/components/layout/sidebar.tsx): the names of the open groups, in the
 * order they were opened.
 */
module Sidebar {
  import opened Sequences

  /**
   * Clicking a group header closes the group when it is open, keeping only
   * the other names, and otherwise opens it by appending the name.
   */
  function ToggleGroup(expanded: seq<string>, group: string): (r: seq<string>)
    ensures group in r <==> group !in expanded
    ensures group !in expanded ==> r == expanded + [group]
    ensures group in expanded ==> IsSubsequence(r, expanded)
  {
    if group in expanded then
      FilterIsSubsequence(expanded, x => x != group);
      Filter(expanded, x => x != group)
    else expanded + [group]
  }

  /** `expanded` with every occurrence of `group` removed, element by element. */
  function Without(expanded: seq<string>, group: string): (r: seq<string>)
    ensures group !in r
    ensures forall i :: 0 <= i < |r| ==> r[i] in expanded
    ensures forall i :: 0 <= i < |expanded| && expanded[i] != group ==> expanded[i] in r
  {
    if expanded == [] then []
    else (if expanded[0] == group then [] else [expanded[0]]) + Without(expanded[1..], group)
  }

  /** Removing by filter is removing element by element. */
  lemma {:induction false} FilterIsWithout(expanded: seq<string>, group: string)
    ensures Filter(expanded, x => x != group) == Without(expanded, group)
  {
    if expanded != [] {
      FilterIsWithout(expanded[1..], group);
    }
  }

  /** Appending a name and removing it again gives back a list that never held it. */
  lemma {:induction false} WithoutAppended(expanded: seq<string>, group: string)
    requires group !in expanded
    ensures Without(expanded + [group], group) == expanded
  {
    if expanded == [] {
      assert expanded + [group] == [group];
    } else {
      WithoutAppended(expanded[1..], group);
      assert (expanded + [group])[1..] == expanded[1..] + [group];
      assert expanded == [expanded[0]] + expanded[1..];
    }
  }

  /** No name occurs twice. */
  predicate Distinct(xs: seq<string>) {
    forall i, j :: 0 <= i < j < |xs| ==> xs[i] != xs[j]
  }

  /** Removing a name from a list without repeats leaves no repeats. */
  lemma {:induction false} WithoutDistinct(expanded: seq<string>, group: string)
    requires Distinct(expanded)
    ensures Distinct(Without(expanded, group))
  {
    if expanded != [] {
      var tail := expanded[1..];
      WithoutDistinct(tail, group);
      var rest := Without(tail, group);
      if expanded[0] != group {
        assert expanded[0] !in tail by {
          forall k | 0 <= k < |tail| ensures tail[k] != expanded[0] {
            assert tail[k] == expanded[k + 1];
          }
        }
        var r := [expanded[0]] + rest;
        forall i, j | 0 <= i < j < |r|
          ensures r[i] != r[j]
        {
          assert r[j] == rest[j - 1];
          if i > 0 {
            assert r[i] == rest[i - 1];
          }
        }
      }
    }
  }

  /** Only the clicked group changes: every other group stays open or closed. */
  lemma OthersUnchanged(expanded: seq<string>, group: string, other: string)
    requires other != group
    ensures other in ToggleGroup(expanded, group) <==> other in expanded
  {
    if group in expanded {
      FilterIsWithout(expanded, group);
      if other in expanded {
        var i :| 0 <= i < |expanded| && expanded[i] == other;
      }
      if other in Without(expanded, group) {
        var i :| 0 <= i < |Without(expanded, group)| && Without(expanded, group)[i] == other;
      }
    }
  }

  /** Opening a closed group and closing it again restores the list exactly. */
  lemma ToggleClosedTwice(expanded: seq<string>, group: string)
    requires group !in expanded
    ensures ToggleGroup(ToggleGroup(expanded, group), group) == expanded
  {
    FilterIsWithout(expanded + [group], group);
    WithoutAppended(expanded, group);
  }

  /** A list without repeated names keeps that property under any toggle. */
  lemma ToggleKeepsDistinct(expanded: seq<string>, group: string)
    requires Distinct(expanded)
    ensures Distinct(ToggleGroup(expanded, group))
  {
    if group in expanded {
      FilterIsWithout(expanded, group);
      WithoutDistinct(expanded, group);
    }
  }

  /** A click on a group header toggles it only while the sidebar is open. */
  function OnGroupClick(sidebarOpen: bool, expanded: seq<string>, group: string): (r: seq<string>)
    ensures !sidebarOpen ==> r == expanded
    ensures sidebarOpen ==> (group in r <==> group !in expanded)
  {
    if sidebarOpen then ToggleGroup(expanded, group) else expanded
  }
}
