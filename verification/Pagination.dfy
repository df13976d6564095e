/** Page parameters, and the walk along a provider's pages. */
module Pagination {
  import opened Wrappers
  import opened Decimal

  /** One page of a provider's list; `next` is 0 on the last one. */
  datatype Page<+T> = Page(items: seq<T>, next: int, last: int)

  /** The lists one after the other. */
  function Joined<T>(lists: seq<seq<T>>): seq<T> {
    if lists == [] then [] else lists[0] + Joined(lists[1..])
  }

  /** Missing, non-positive and oversized parameters are replaced as the API documents: page 1, 20 per
      page, at most 100 per page. */
  method ClampPagination(page: Option<int>, perPage: Option<int>) returns (p: int, pp: int)
    ensures 1 <= p && 1 <= pp <= 100
    ensures page.Some? && page.value >= 1 ==> p == page.value
    ensures page.None? || page.value < 1 ==> p == 1
    ensures perPage.Some? && perPage.value >= 1 ==> pp == if perPage.value <= 100 then perPage.value else 100
    ensures perPage.None? || perPage.value < 1 ==> pp == 20
  {
    p := 1;
    if page.Some? {
      p := page.value;
    }
    pp := 20;
    if perPage.Some? {
      pp := perPage.value;
      if pp > 100 {
        pp := 100;
      }
    }
    if p < 1 {
      p := 1;
    }
    if pp < 1 {
      pp := 20;
    }
  }

  lemma {:induction false} ProductNonNegative(x: nat, d: nat)
    ensures 0 <= x * d
  {
    if x > 0 {
      ProductNonNegative(x - 1, d);
      assert x * d == (x - 1) * d + d;
    }
  }

  /** After clamping, the largest total the listings compute fits 64 bits for every page up to this one. */
  lemma TotalFitsInt64(page: int, perPage: int)
    requires 1 <= page <= MAX_INT64 / 100 && 1 <= perPage <= 100
    ensures 0 <= (page - 1) * perPage <= page * perPage
    ensures IsInt64(page * perPage + 1)
  {
    ProductNonNegative(page, 100 - perPage);
    ProductNonNegative(page - 1, perPage);
    assert page * (100 - perPage) == page * 100 - page * perPage;
    assert (page - 1) * perPage == page * perPage - perPage;
    assert page * 100 <= MAX_INT64 - 1;
  }
}
