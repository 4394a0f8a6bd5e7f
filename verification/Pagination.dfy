/** Paged listing: the slice a page gets, and the number of pages reported with it. */
module Pagination {
  function Min(a: int, b: int): int {
    if a < b then a else b
  }

  /** The services cap the page size, whatever the request asked for. */
  const MAX_LIMIT := 100

  function SafeLimit(limit: nat): nat {
    Min(limit, MAX_LIMIT)
  }

  /** Rows `skip` to `skip + take` of the filtered, ordered list. */
  function Slice<T>(items: seq<T>, skip: nat, take: nat): seq<T> {
    items[Min(skip, |items|)..Min(skip + take, |items|)]
  }

  function Page<T>(items: seq<T>, page: nat, limit: nat): seq<T>
    requires page >= 1 && limit >= 1
  {
    var safeLimit := SafeLimit(limit);
    Slice(items, (page - 1) * safeLimit, safeLimit)
  }

  lemma SliceMeans<T>(items: seq<T>, skip: nat, take: nat, i: nat)
    ensures i < |Slice(items, skip, take)| <==> i < take && skip + i < |items|
    ensures i < |Slice(items, skip, take)| ==> Slice(items, skip, take)[i] == items[skip + i]
  {
  }

  /** Row `i` of a page is row `(page - 1) * size + i` of the list, as far as the list goes, the
      size being the limit asked for and at most 100. */
  lemma PageMeans<T>(items: seq<T>, page: nat, limit: nat, size: nat, i: nat, at: nat)
    requires page >= 1 && limit >= 1 && size == (if limit <= 100 then limit else 100)
    requires at == (page - 1) * size + i
    ensures i < |Page(items, page, limit)| <==> i < size && at < |items|
    ensures i < |Page(items, page, limit)| ==> Page(items, page, limit)[i] == items[at]
  {
    assert SafeLimit(limit) == size;
    SliceMeans(items, at - i, size, i);
  }

  /** The rounded-up quotient, by the limit that was asked for. */
  function TotalPages(total: nat, limit: nat): nat
    requires limit >= 1
  {
    if total % limit == 0 then total / limit else total / limit + 1
  }

  /** Pages 1 to `n`, one after the other. */
  function Pages<T>(items: seq<T>, n: nat, limit: nat): seq<T>
    requires limit >= 1
  {
    if n == 0 then [] else Pages(items, n - 1, limit) + Page(items, n, limit)
  }

  lemma AddPage<T>(items: seq<T>, page: nat, size: nat)
    requires page >= 1
    ensures items[..Min((page - 1) * size, |items|)] + Slice(items, (page - 1) * size, size) ==
            items[..Min(page * size, |items|)]
  {
  }

  lemma {:induction false} PagesArePrefix<T>(items: seq<T>, n: nat, limit: nat)
    requires limit >= 1
    ensures Pages(items, n, limit) == items[..Min(n * SafeLimit(limit), |items|)]
  {
    if n > 0 {
      PagesArePrefix(items, n - 1, limit);
      AddPage(items, n, SafeLimit(limit));
    }
  }

  /** The number of pages is the least that holds all rows. */
  lemma TotalPagesLeast(total: nat, limit: nat)
    requires limit >= 1
    ensures total <= TotalPages(total, limit) * limit
    ensures total > 0 ==> (TotalPages(total, limit) - 1) * limit < total
  {
  }

  /** Reading all reported pages in order reads the whole list, each row once, exactly when
      the limit keeps to the cap or the list is short enough for the capped pages. */
  lemma PagesCoverIff<T>(items: seq<T>, limit: nat)
    requires limit >= 1
    ensures Pages(items, TotalPages(|items|, limit), limit) == items <==>
            limit <= MAX_LIMIT || |items| <= TotalPages(|items|, limit) * MAX_LIMIT
  {
    var n := TotalPages(|items|, limit);
    PagesArePrefix(items, n, limit);
    TotalPagesLeast(|items|, limit);
    var cut := Min(n * SafeLimit(limit), |items|);
    assert |items[..cut]| == cut;
    assert cut == |items| ==> items[..cut] == items;
  }

  /** What a client sees: the request allows limits from 1 to the cap, and for those
      reading pages 1 to totalPages is reading the list. */
  lemma PagesAreList<T>(items: seq<T>, limit: nat)
    requires 1 <= limit <= MAX_LIMIT
    ensures Pages(items, TotalPages(|items|, limit), limit) == items
  {
    PagesCoverIff(items, limit);
  }

  /** A request over the cap is turned away before the service is called.  A caller inside
      the program is not, and can lose rows: with a limit of 101 and 101 rows the only page
      reported ends at row 100. */
  lemma OverCapLosesRows(items: seq<int>)
    requires |items| == 101
    ensures TotalPages(|items|, 101) == 1 && Pages(items, 1, 101) == items[..100] != items
  {
  }
}
