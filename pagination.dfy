/** The pager under the user table (frontend/src/components/Pagination.jsx):
    a button per page, and Prev / Next buttons that request a neighbouring
    page through `onPageChange`. */
module Pagination {

  /** `pages`: the loop pushing 1..totalPages. */
  method PageNumbers(totalPages: int) returns (pages: seq<int>)
    ensures |pages| == (if totalPages < 1 then 0 else totalPages)
    ensures forall k :: 0 <= k < |pages| ==> pages[k] == k + 1
  {
    pages := [];
    var i := 1;
    while i <= totalPages
      invariant 1 <= i <= (if totalPages < 1 then 1 else totalPages + 1)
      invariant |pages| == i - 1
      invariant forall k :: 0 <= k < |pages| ==> pages[k] == k + 1
      decreases totalPages - i
    {
      pages := pages + [i];
      i := i + 1;
    }
  }

  /** The page Prev requests: `Math.max(1, page - 1)`. */
  function PrevTarget(page: int): (r: int)
    ensures r >= 1
    ensures page > 1 ==> r == page - 1
    ensures page <= 1 ==> r == 1
  {
    if 1 < page - 1 then page - 1 else 1
  }

  /** The page Next requests: `Math.min(totalPages, page + 1)`. */
  function NextTarget(page: int, totalPages: int): (r: int)
    ensures r <= totalPages
    ensures page < totalPages ==> r == page + 1
    ensures page >= totalPages ==> r == totalPages
  {
    if totalPages < page + 1 then totalPages else page + 1
  }

  /** `disabled={page === 1}` */
  predicate PrevDisabled(page: int) {
    page == 1
  }

  /** `disabled={page === totalPages}` */
  predicate NextDisabled(page: int, totalPages: int) {
    page == totalPages
  }

  /** A page button is highlighted when it is the current page. */
  predicate Highlighted(p: int, page: int) {
    p == page
  }

  /** For a page in `1..totalPages`, every request stays in `1..totalPages`,
      and a button is disabled exactly when pressing it would not move. */
  lemma TargetsStayInRange(page: int, totalPages: int)
    requires 1 <= page <= totalPages
    ensures 1 <= PrevTarget(page) <= totalPages
    ensures 1 <= NextTarget(page, totalPages) <= totalPages
    ensures PrevDisabled(page) <==> PrevTarget(page) == page
    ensures NextDisabled(page, totalPages) <==> NextTarget(page, totalPages) == page
  {
  }

  /** Prev then Next from any page but the last (and Next then Prev from any
      page but the first) comes back to where it started. */
  lemma PrevNextInverse(page: int, totalPages: int)
    requires 1 <= page <= totalPages
    ensures page > 1 ==> NextTarget(PrevTarget(page), totalPages) == page
    ensures page < totalPages ==> PrevTarget(NextTarget(page, totalPages)) == page
  {
  }

  /** Among the listed buttons exactly one is highlighted when the page is in
      range, and none otherwise; the highlighted one requests the page itself. */
  lemma OneHighlighted(pages: seq<int>, page: int, totalPages: int)
    requires |pages| == (if totalPages < 1 then 0 else totalPages)
    requires forall k :: 0 <= k < |pages| ==> pages[k] == k + 1
    ensures 1 <= page <= totalPages ==>
      Highlighted(pages[page - 1], page) &&
      forall k :: 0 <= k < |pages| && k != page - 1 ==> !Highlighted(pages[k], page)
    ensures !(1 <= page <= totalPages) ==>
      forall k :: 0 <= k < |pages| ==> !Highlighted(pages[k], page)
  {
  }
}
