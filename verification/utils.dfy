/**
 * The pure helpers of src/lib/utils.ts: `truncate`, the page-number strip
 * `generatePagination` and the chart-data merge `combineMetricsData`.
 */
module Utils {
  import opened Types
  import Text

  // ---------------------------------------------------------------------------
  // truncate
  // ---------------------------------------------------------------------------

  /** `substring(0, n)` clamps a negative end to 0. */
  function ClampLength(n: int): nat {
    if n < 0 then 0 else n
  }

  /**
   * A string longer than `length` is cut to its first `length` characters
   * and followed by an ellipsis; a string that fits is returned unchanged.
   */
  function Truncate(s: string, length: int): (r: string)
    ensures |s| <= length ==> r == s
    ensures |s| > length ==> |r| == ClampLength(length) + 3
    ensures |s| > length ==> r[..ClampLength(length)] <= s && r[ClampLength(length)..] == "..."
  {
    if |s| > length then s[..ClampLength(length)] + "..." else s
  }

  /** Truncating twice at the same non-negative length changes nothing further. */
  lemma TruncateIdempotent(s: string, length: nat)
    ensures Truncate(Truncate(s, length), length) == Truncate(s, length)
    ensures |Truncate(s, length)| <= length + 3
  {
    if |s| > length {
      var r := Truncate(s, length);
      assert r[..length] == s[..length];
      assert r[..length] + "..." == r;
    }
  }

  // ---------------------------------------------------------------------------
  // generatePagination
  // ---------------------------------------------------------------------------

  /** An entry of the page-number strip: a page button or a `'...'` gap. */
  datatype PageItem = Page(n: int) | Ellipsis

  /**
   * The page strip. Up to seven pages are all listed; beyond that the strip
   * shows the first and last pages, the neighbourhood of the current page and
   * `'...'` for the gaps.
   */
  function GeneratePagination(currentPage: int, totalPages: int): (r: seq<PageItem>)
    ensures |r| <= 7
    ensures totalPages <= 7 ==>
      |r| == ClampLength(totalPages) && forall i :: 0 <= i < |r| ==> r[i] == Page(i + 1)
  {
    if totalPages <= 7 then
      seq(ClampLength(totalPages), i => Page(i + 1))
    else if currentPage <= 3 then
      [Page(1), Page(2), Page(3), Ellipsis, Page(totalPages - 1), Page(totalPages)]
    else if currentPage >= totalPages - 2 then
      [Page(1), Page(2), Ellipsis, Page(totalPages - 2), Page(totalPages - 1), Page(totalPages)]
    else
      [Page(1), Ellipsis, Page(currentPage - 1), Page(currentPage), Page(currentPage + 1),
       Ellipsis, Page(totalPages)]
  }

  /** The page numbers of a strip increase strictly from left to right. */
  ghost predicate StrictlyIncreasing(r: seq<PageItem>) {
    forall i, j :: 0 <= i < j < |r| && r[i].Page? && r[j].Page? ==> r[i].n < r[j].n
  }

  /** Two `'...'` gaps never stand next to each other. */
  ghost predicate NoAdjacentGaps(r: seq<PageItem>) {
    forall i :: 0 <= i < |r| - 1 ==> !(r[i].Ellipsis? && r[i + 1].Ellipsis?)
  }

  /**
   * For a long range and an in-range current page, the strip starts at page 1,
   * ends at the last page, lists only pages that exist in increasing order,
   * shows the current page, and separates gaps by at least one page.
   */
  lemma PaginationWellFormed(currentPage: int, totalPages: int)
    requires totalPages > 7 && 1 <= currentPage <= totalPages
    ensures var r := GeneratePagination(currentPage, totalPages);
      && r[0] == Page(1)
      && r[|r| - 1] == Page(totalPages)
      && (forall i :: 0 <= i < |r| && r[i].Page? ==> 1 <= r[i].n <= totalPages)
      && StrictlyIncreasing(r)
      && NoAdjacentGaps(r)
      && Page(currentPage) in r
  {
  }

  /** Pages 1..7 or fewer: the whole range, and nothing when there are no pages. */
  lemma PaginationShortRange(currentPage: int, totalPages: nat)
    requires totalPages <= 7
    ensures totalPages == 0 ==> GeneratePagination(currentPage, totalPages) == []
    ensures forall n :: 1 <= n <= totalPages ==> Page(n) in GeneratePagination(currentPage, totalPages)
    ensures Ellipsis !in GeneratePagination(currentPage, totalPages)
  {
    var r := GeneratePagination(currentPage, totalPages);
    forall n | 1 <= n <= totalPages
      ensures Page(n) in r
    {
      assert r[n - 1] == Page(n);
    }
  }

  /**
   * Away from both ends the strip is the first page, a gap, the current page
   * between its two neighbours, a gap and the last page.
   */
  lemma PaginationMiddleWindow(currentPage: int, totalPages: int)
    requires totalPages > 7 && 3 < currentPage < totalPages - 2
    ensures var r := GeneratePagination(currentPage, totalPages);
      && |r| == 7
      && r[0] == Page(1) && r[1] == Ellipsis
      && r[2..5] == [Page(currentPage - 1), Page(currentPage), Page(currentPage + 1)]
      && r[5] == Ellipsis && r[6] == Page(totalPages)
  {
  }

  // ---------------------------------------------------------------------------
  // combineMetricsData
  // ---------------------------------------------------------------------------

  const DefaultMonths: seq<string> :=
    ["Jan", "Feb", "Mar", "Apr", "May", "Jun", "Jul", "Aug", "Sep", "Oct", "Nov", "Dec"]

  /** The chart label of the `index`-th month: an abbreviation, then `Month n`. */
  function MonthName(index: nat): (r: string)
    ensures index < 12 ==> r == DefaultMonths[index] && |r| == 3
    ensures index >= 12 ==> r == "Month " + Text.NatToString(index + 1)
  {
    if index < |DefaultMonths| then DefaultMonths[index] else "Month " + Text.NatToString(index + 1)
  }

  /** Distinct months get distinct chart labels. */
  lemma MonthNamesDistinct(i: nat, j: nat)
    requires i != j
    ensures MonthName(i) != MonthName(j)
  {
    if i >= 12 && j >= 12 {
      var si, sj := Text.NatToString(i + 1), Text.NatToString(j + 1);
      assert Text.NumValue(si) != Text.NumValue(sj);
      assert MonthName(i)[6..] == si && MonthName(j)[6..] == sj;
    } else if i >= 12 || j >= 12 {
      assert |MonthName(i)| != |MonthName(j)|;
    }
  }

  /**
   * One chart point per month of donation statistics: the month label, that
   * month's donation count, and the activity count of the same month, or 0
   * when the activities series is shorter.
   */
  function CombineMetricsData(
    donationsStats: seq<DonationsMonthlyStats>, activitiesStats: seq<ActivityMonthlyStats>)
    : (r: seq<ActivityData>)
    ensures |r| == |donationsStats|
    ensures forall i :: 0 <= i < |r| ==>
      && r[i].name == MonthName(i)
      && r[i].donations == donationsStats[i].donations
      && r[i].events == (if i < |activitiesStats| then activitiesStats[i].activities else 0)
  {
    seq(|donationsStats|, i requires 0 <= i < |donationsStats| =>
      ActivityData(
        MonthName(i),
        donationsStats[i].donations,
        if i < |activitiesStats| then activitiesStats[i].activities else 0))
  }

  /** The chart labels of a merge are pairwise distinct. */
  lemma CombineMetricsLabelsDistinct(
    donationsStats: seq<DonationsMonthlyStats>, activitiesStats: seq<ActivityMonthlyStats>)
    ensures var r := CombineMetricsData(donationsStats, activitiesStats);
      forall i, j :: 0 <= i < j < |r| ==> r[i].name != r[j].name
  {
    var r := CombineMetricsData(donationsStats, activitiesStats);
    forall i, j | 0 <= i < j < |r|
      ensures r[i].name != r[j].name
    {
      MonthNamesDistinct(i, j);
    }
  }
}
