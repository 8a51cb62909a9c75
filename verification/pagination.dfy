/**
 * The arithmetic of the `usePagination` hook (src/lib/hooks/use-pagination.ts):
 * a 1-based current page, the page count, clamped next/previous navigation and
 * the half-open index range of the current page.
 */
module Pagination {

  /** The hook's state for one render: its props and the current page. */
  datatype Pager = Pager(currentPage: int, totalItems: nat, itemsPerPage: nat)

  /** Props accepted by the model: a page holds at least one item. */
  predicate ValidProps(p: Pager) {
    p.itemsPerPage > 0
  }

  /** `Math.ceil(totalItems / itemsPerPage)`: the fewest pages that hold every item. */
  function TotalPages(totalItems: nat, itemsPerPage: nat): (r: nat)
    requires itemsPerPage > 0
    ensures r * itemsPerPage >= totalItems
    ensures r == 0 || (r - 1) * itemsPerPage < totalItems
    ensures r == 0 <==> totalItems == 0
  {
    var r := (totalItems + itemsPerPage - 1) / itemsPerPage;
    CeilDivBounds(totalItems, itemsPerPage, r);
    r
  }

  lemma CeilDivBounds(n: nat, d: nat, r: nat)
    requires d > 0 && r == (n + d - 1) / d
    ensures r * d >= n
    ensures r == 0 || (r - 1) * d < n
    ensures r == 0 <==> n == 0
  {
    var m := (n + d - 1) % d;
    assert n + d - 1 == r * d + m && 0 <= m < d;
    assert (r - 1) * d == r * d - d;
  }

  /** The hook starts on page 1. */
  function Init(totalItems: nat, itemsPerPage: nat): (p: Pager)
    ensures p.currentPage == 1
    ensures p.totalItems == totalItems && p.itemsPerPage == itemsPerPage
  {
    Pager(1, totalItems, itemsPerPage)
  }

  function Pages(p: Pager): nat
    requires ValidProps(p)
  {
    TotalPages(p.totalItems, p.itemsPerPage)
  }

  /**
   * `nextPage`: one page forward, but never past the page count. With no
   * items the page count is 0, so this moves to page 0.
   */
  function NextPage(p: Pager): (q: Pager)
    requires ValidProps(p)
    ensures q.totalItems == p.totalItems && q.itemsPerPage == p.itemsPerPage
    ensures q.currentPage <= Pages(p)
    ensures q.currentPage <= p.currentPage + 1
    ensures q.currentPage == p.currentPage + 1 || q.currentPage == Pages(p)
  {
    p.(currentPage := if p.currentPage + 1 < Pages(p) then p.currentPage + 1 else Pages(p))
  }

  /** `prevPage`: one page back, but never below page 1. */
  function PrevPage(p: Pager): (q: Pager)
    ensures q.totalItems == p.totalItems && q.itemsPerPage == p.itemsPerPage
    ensures q.currentPage >= 1
    ensures q.currentPage >= p.currentPage - 1
    ensures q.currentPage == p.currentPage - 1 || q.currentPage == 1
  {
    p.(currentPage := if p.currentPage - 1 > 1 then p.currentPage - 1 else 1)
  }

  /** `setCurrentPage` is exposed unclamped: any page number is stored as given. */
  function SetCurrentPage(p: Pager, page: int): (q: Pager)
    ensures q.currentPage == page
    ensures q.totalItems == p.totalItems && q.itemsPerPage == p.itemsPerPage
  {
    p.(currentPage := page)
  }

  /**
   * `startIndex`: the index of the first item on the current page, which lies
   * inside the item list whenever the page exists.
   */
  function StartIndex(p: Pager): (i: int)
    ensures p.currentPage >= 1 ==> i >= 0
    ensures p.currentPage == 1 ==> i == 0
    ensures ValidProps(p) && 1 <= p.currentPage <= Pages(p) ==> i < p.totalItems
  {
    var i := (p.currentPage - 1) * p.itemsPerPage;
    if ValidProps(p) && 1 <= p.currentPage <= Pages(p) then
      MulLe(p.currentPage - 1, Pages(p) - 1, p.itemsPerPage);
      i
    else i
  }

  /**
   * `endIndex`: one past the last index of the current page, not clipped to
   * the item count. On an existing page it reaches the end of the list
   * exactly when the page is the last one.
   */
  function EndIndex(p: Pager): (i: int)
    ensures i - StartIndex(p) == p.itemsPerPage
    ensures ValidProps(p) && 1 <= p.currentPage <= Pages(p) ==>
      (i >= p.totalItems <==> p.currentPage == Pages(p))
  {
    var i := StartIndex(p) + p.itemsPerPage;
    if ValidProps(p) && 1 <= p.currentPage < Pages(p) then
      MulLe(p.currentPage, Pages(p) - 1, p.itemsPerPage);
      i
    else i
  }

  /**
   * For a page within [1, page count] the slice is non-empty, starts inside the
   * item list, and always spans exactly `itemsPerPage` indices.
   */
  lemma SliceInRange(p: Pager)
    requires ValidProps(p) && 1 <= p.currentPage <= Pages(p)
    ensures 0 <= StartIndex(p) < p.totalItems
    ensures EndIndex(p) - StartIndex(p) == p.itemsPerPage
  {
    var k, last, d := p.currentPage - 1, Pages(p) - 1, p.itemsPerPage;
    MulLe(k, last, d);
    assert StartIndex(p) == k * d;
    assert last * d < p.totalItems;
  }

  lemma MulLe(a: nat, b: nat, c: nat)
    requires a <= b
    ensures a * c <= b * c
  {
  }

  /** With no items, `nextPage` from the initial page goes to page 0. */
  lemma EmptyListNextIsPageZero(itemsPerPage: nat)
    requires itemsPerPage > 0
    ensures NextPage(Init(0, itemsPerPage)).currentPage == 0
  {
  }

  /** A navigation button press. */
  datatype Nav = Next | Prev

  function Press(p: Pager, n: Nav): Pager
    requires ValidProps(p)
  {
    match n
    case Next => NextPage(p)
    case Prev => PrevPage(p)
  }

  /** The page after a sequence of button presses. */
  function Navigate(p: Pager, presses: seq<Nav>): (q: Pager)
    requires ValidProps(p)
    ensures ValidProps(q) && q.totalItems == p.totalItems && q.itemsPerPage == p.itemsPerPage
    decreases |presses|
  {
    if presses == [] then p else Navigate(Press(p, presses[0]), presses[1..])
  }

  /**
   * When there is at least one page, any sequence of next/previous presses
   * from a page in range keeps the current page in [1, page count].
   */
  lemma {:induction false} NavigationStaysInRange(p: Pager, presses: seq<Nav>)
    requires ValidProps(p) && Pages(p) >= 1 && 1 <= p.currentPage <= Pages(p)
    ensures 1 <= Navigate(p, presses).currentPage <= Pages(p)
    decreases |presses|
  {
    if presses != [] {
      NavigationStaysInRange(Press(p, presses[0]), presses[1..]);
    }
  }
}
