/**
 Paging through a list endpoint until a short page arrives (frontend/lib/pagination.ts), against an
 endpoint that serves `limit` rows from `offset` on and refuses limits above its cap.
 */
module Pagination {
  import opened Options

  // The page budget; the theorems hold for any.
  const MAX_PAGES: nat := 100

  function Min(a: nat, b: nat): nat {
    if a < b then a else b
  }

  // The rows of one page, or nothing when the request is refused.
  function Serve<T>(list: seq<T>, cap: nat, limit: nat, offset: nat): Option<seq<T>> {
    if cap < limit then None
    else if |list| <= offset then Some([])
    else Some(list[offset..Min(|list|, offset + limit)])
  }

  // The rows that the requests from number `page` and offset `offset` on bring, with `left` of them to go,
  // when the list may differ from one request to the next.
  function Pages<T>(lists: nat -> seq<T>, cap: nat, pageSize: nat, left: nat, page: nat, offset: nat): seq<T>
    requires pageSize <= cap
  {
    if left == 0 then []
    else
      var rows := Serve(lists(page), cap, pageSize, offset).value;
      if rows == [] || |rows| < pageSize then rows
      else rows + Pages(lists, cap, pageSize, left - 1, page + 1, offset + pageSize)
  }

  function Requests<T>(lists: nat -> seq<T>, cap: nat, pageSize: nat, left: nat, page: nat, offset: nat): nat
    requires pageSize <= cap
  {
    if left == 0 then 0
    else
      var rows := Serve(lists(page), cap, pageSize, offset).value;
      if rows == [] || |rows| < pageSize then 1
      else 1 + Requests(lists, cap, pageSize, left - 1, page + 1, offset + pageSize)
  }

  // `lists(k)` is the list as the k-th request finds it.  A refused request fails the whole fetch.
  method FetchAll<T>(lists: nat -> seq<T>, cap: nat, pageSize: nat, maxPages: nat := MAX_PAGES)
    returns (result: Option<seq<T>>, requests: nat)
    requires 1 <= maxPages
    ensures result.None? <==> cap < pageSize
    ensures result.None? ==> requests == 1
    ensures result.Some? ==>
              result.value == Pages(lists, cap, pageSize, maxPages, 0, 0)
                && requests == Requests(lists, cap, pageSize, maxPages, 0, 0)
  {
    var fetched: seq<T> := [];
    var offset := 0;
    requests := 0;
    for page := 0 to maxPages
      invariant 0 <= offset && requests == page
      invariant 0 < page ==> pageSize <= cap
      invariant pageSize <= cap ==> FetchedSoFar(lists, cap, pageSize, maxPages, fetched, page, offset)
    {
      var reply := Serve(lists(page), cap, pageSize, offset);
      requests := requests + 1;
      if reply.None? {
        return None, requests;
      }
      var rows := reply.value;
      OnePage(lists, cap, pageSize, maxPages, fetched, page, offset);
      if |rows| == 0 {
        assert fetched + rows == fetched;
        return Some(fetched), requests;
      }
      fetched := fetched + rows;
      if |rows| < pageSize {
        return Some(fetched), requests;
      }
      offset := offset + pageSize;
    }
    assert fetched + [] == fetched;
    return Some(fetched), requests;
  }

  ghost predicate FetchedSoFar<T>(lists: nat -> seq<T>, cap: nat, pageSize: nat, maxPages: nat, fetched: seq<T>,
                                  page: nat, offset: nat)
    requires pageSize <= cap && page <= maxPages
  {
    && fetched + Pages(lists, cap, pageSize, maxPages - page, page, offset)
        == Pages(lists, cap, pageSize, maxPages, 0, 0)
    && page + Requests(lists, cap, pageSize, maxPages - page, page, offset)
        == Requests(lists, cap, pageSize, maxPages, 0, 0)
  }

  // A full page leaves the rest to fetch; a short or empty one ends the fetch.
  lemma OnePage<T>(lists: nat -> seq<T>, cap: nat, pageSize: nat, maxPages: nat, fetched: seq<T>, page: nat,
                   offset: nat)
    requires pageSize <= cap && page < maxPages && FetchedSoFar(lists, cap, pageSize, maxPages, fetched, page, offset)
    ensures var rows := Serve(lists(page), cap, pageSize, offset).value;
            if rows == [] || |rows| < pageSize
            then fetched + rows == Pages(lists, cap, pageSize, maxPages, 0, 0)
              && page + 1 == Requests(lists, cap, pageSize, maxPages, 0, 0)
            else FetchedSoFar(lists, cap, pageSize, maxPages, fetched + rows, page + 1, offset + pageSize)
  {
    var rows := Serve(lists(page), cap, pageSize, offset).value;
    var later := Pages(lists, cap, pageSize, maxPages - page - 1, page + 1, offset + pageSize);
    assert fetched + (rows + later) == (fetched + rows) + later;
  }

  lemma DivStep(m: nat, p: nat)
    requires 1 <= p
    ensures m < p ==> m / p == 0
    ensures p <= m ==> m / p == (m - p) / p + 1
  {
    if p <= m {
      var q, q' := m / p, (m - p) / p + 1;
      var r, r' := m % p, (m - p) % p;
      assert m == q * p + r && m == q' * p + r';
      assert (q - q') * p == r' - r;
      SmallMultiple(q - q', p);
    }
  }

  lemma SmallMultiple(d: int, p: int)
    requires 1 <= p && 0 - p < d * p < p
    ensures d == 0
  {
  }

  // The number of rows `left` full pages hold.
  function Span(left: nat, pageSize: nat): nat {
    if left == 0 then 0 else Span(left - 1, pageSize) + pageSize
  }

  lemma {:induction false} SpanIsProduct(left: nat, pageSize: nat)
    ensures Span(left, pageSize) == left * pageSize
  {
    if 0 < left {
      SpanIsProduct(left - 1, pageSize);
      assert left * pageSize == (left - 1) * pageSize + pageSize;
    }
  }

  lemma {:induction false} StableRows<T>(lists: nat -> seq<T>, list: seq<T>, cap: nat, pageSize: nat, left: nat,
                                         page: nat, offset: nat)
    requires 1 <= pageSize <= cap && offset <= |list|
    requires forall k :: lists(k) == list
    ensures Pages(lists, cap, pageSize, left, page, offset) == list[offset..Min(|list|, offset + Span(left, pageSize))]
    decreases left
  {
    if 0 < left && offset + pageSize <= |list| {
      StableRows(lists, list, cap, pageSize, left - 1, page + 1, offset + pageSize);
      JoinSlices(list, offset, offset + pageSize, Min(|list|, offset + pageSize + Span(left - 1, pageSize)));
    }
  }

  lemma JoinSlices<T>(list: seq<T>, i: nat, j: nat, k: nat)
    requires i <= j <= k <= |list|
    ensures list[i..j] + list[j..k] == list[i..k]
  {
  }

  lemma {:induction false} StableRequests<T>(lists: nat -> seq<T>, list: seq<T>, cap: nat, pageSize: nat, left: nat,
                                             page: nat, offset: nat)
    requires 1 <= pageSize <= cap && offset <= |list|
    requires forall k :: lists(k) == list
    ensures Requests(lists, cap, pageSize, left, page, offset) == Min(left, (|list| - offset) / pageSize + 1)
    decreases left
  {
    DivStep(|list| - offset, pageSize);
    if 0 < left && offset + pageSize <= |list| {
      StableRequests(lists, list, cap, pageSize, left - 1, page + 1, offset + pageSize);
    }
  }

  // The page of request k.
  function PageAt<T>(lists: nat -> seq<T>, cap: nat, pageSize: nat, k: nat): (rows: seq<T>)
    requires pageSize <= cap
    ensures |rows| <= pageSize
  {
    Serve(lists(k), cap, pageSize, Span(k, pageSize)).value
  }

  // The rows of the first n requests, each from its own offset of the list as that request finds it.
  function Received<T>(lists: nat -> seq<T>, cap: nat, pageSize: nat, n: nat): seq<T>
    requires pageSize <= cap
  {
    if n == 0 then []
    else Received(lists, cap, pageSize, n - 1) + PageAt(lists, cap, pageSize, n - 1)
  }

  ghost predicate FullUntil<T>(lists: nat -> seq<T>, cap: nat, pageSize: nat, first: nat, n: nat)
    requires pageSize <= cap
  {
    forall k :: first <= k < n ==> |PageAt(lists, cap, pageSize, k)| == pageSize
  }

  // One request of the rest.
  lemma FirstPage<T>(lists: nat -> seq<T>, cap: nat, pageSize: nat, left: nat, page: nat)
    requires 1 <= pageSize <= cap && 1 <= left
    ensures var rows, next := PageAt(lists, cap, pageSize, page), Span(page + 1, pageSize);
            if |rows| < pageSize then
              && Pages(lists, cap, pageSize, left, page, Span(page, pageSize)) == rows
              && Requests(lists, cap, pageSize, left, page, Span(page, pageSize)) == 1
            else
              && Pages(lists, cap, pageSize, left, page, Span(page, pageSize))
                 == rows + Pages(lists, cap, pageSize, left - 1, page + 1, next)
              && Requests(lists, cap, pageSize, left, page, Span(page, pageSize))
                 == 1 + Requests(lists, cap, pageSize, left - 1, page + 1, next)
  {
  }

  // What the rest of the fetch, with at least one request to make, adds to what came before.
  ghost predicate RestArrives<T>(lists: nat -> seq<T>, cap: nat, pageSize: nat, left: nat, page: nat, n: nat,
                                 rest: seq<T>)
    requires pageSize <= cap
  {
    && 1 <= n <= left
    && Received(lists, cap, pageSize, page) + rest == Received(lists, cap, pageSize, page + n)
    && FullUntil(lists, cap, pageSize, page, page + n - 1)
    && (n < left ==> |PageAt(lists, cap, pageSize, page + n - 1)| < pageSize)
  }

  lemma OneMorePage<T>(lists: nat -> seq<T>, cap: nat, pageSize: nat, left: nat, page: nat, n: nat, rest: seq<T>)
    requires pageSize <= cap && |PageAt(lists, cap, pageSize, page)| == pageSize
    requires RestArrives(lists, cap, pageSize, left, page + 1, n, rest)
    ensures RestArrives(lists, cap, pageSize, left + 1, page, n + 1, PageAt(lists, cap, pageSize, page) + rest)
  {
    var before, rows := Received(lists, cap, pageSize, page), PageAt(lists, cap, pageSize, page);
    assert Received(lists, cap, pageSize, page + 1) == before + rows;
    AppendAssociates(before, rows, rest);
  }

  lemma {:induction false} PagesFrom<T>(lists: nat -> seq<T>, cap: nat, pageSize: nat, left: nat, page: nat)
    requires 1 <= pageSize <= cap && 1 <= left
    ensures RestArrives(lists, cap, pageSize, left, page,
                        Requests(lists, cap, pageSize, left, page, Span(page, pageSize)),
                        Pages(lists, cap, pageSize, left, page, Span(page, pageSize)))
    decreases left
  {
    var rows, next := PageAt(lists, cap, pageSize, page), Span(page + 1, pageSize);
    FirstPage(lists, cap, pageSize, left, page);
    if |rows| == pageSize && 1 < left {
      PagesFrom(lists, cap, pageSize, left - 1, page + 1);
      OneMorePage(lists, cap, pageSize, left - 1, page,
                  Requests(lists, cap, pageSize, left - 1, page + 1, next),
                  Pages(lists, cap, pageSize, left - 1, page + 1, next));
    } else {
      assert Received(lists, cap, pageSize, page + 1) == Received(lists, cap, pageSize, page) + rows;
      assert rows + [] == rows;
    }
  }

  lemma AppendAssociates<T>(a: seq<T>, b: seq<T>, c: seq<T>)
    ensures a + (b + c) == (a + b) + c
  {
  }

  // Whatever happens to the list between requests, the fetch returns the rows of its requests in order; all
  // but the last page were full, and it went on until a page was not, or the budget was spent.
  lemma FetchesUntilAShortPage<T>(lists: nat -> seq<T>, cap: nat, pageSize: nat, maxPages: nat)
    requires 1 <= pageSize <= cap && 1 <= maxPages
    ensures var n := Requests(lists, cap, pageSize, maxPages, 0, 0);
            && 1 <= n <= maxPages
            && Pages(lists, cap, pageSize, maxPages, 0, 0) == Received(lists, cap, pageSize, n)
            && FullUntil(lists, cap, pageSize, 0, n - 1)
            && (n < maxPages ==> |PageAt(lists, cap, pageSize, n - 1)| < pageSize)
  {
    PagesFrom(lists, cap, pageSize, maxPages, 0);
    assert Received(lists, cap, pageSize, 0) + Pages(lists, cap, pageSize, maxPages, 0, 0)
           == Pages(lists, cap, pageSize, maxPages, 0, 0);
  }

  // With the page size and the server's cap of 200 and the default budget, lists of up to 20000 rows arrive.
  lemma TwentyThousandRowsArrive<T>(list: seq<T>)
    ensures Pages((_: nat) => list, 200, 200, MAX_PAGES, 0, 0) == list <==> |list| <= 20000
  {
    StableListsArriveWhole((_: nat) => list, list, 200, 200, MAX_PAGES);
  }

  // Of a list that stands still the fetch returns every row once and in order, up to its page budget, and
  // stops one request after the last full page.  It is the whole list exactly when that fits.
  lemma StableListsArriveWhole<T>(lists: nat -> seq<T>, list: seq<T>, cap: nat, pageSize: nat, maxPages: nat)
    requires 1 <= pageSize <= cap && forall k :: lists(k) == list
    ensures Pages(lists, cap, pageSize, maxPages, 0, 0) == list[..Min(|list|, maxPages * pageSize)]
    ensures Pages(lists, cap, pageSize, maxPages, 0, 0) == list <==> |list| <= maxPages * pageSize
    ensures Requests(lists, cap, pageSize, maxPages, 0, 0) == Min(maxPages, |list| / pageSize + 1)
  {
    StableRows(lists, list, cap, pageSize, maxPages, 0, 0);
    SpanIsProduct(maxPages, pageSize);
    StableRequests(lists, list, cap, pageSize, maxPages, 0, 0);
    assert list[0..Min(|list|, maxPages * pageSize)] == list[..Min(|list|, maxPages * pageSize)];
    assert list[..|list|] == list;
  }
}
