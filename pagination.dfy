/**
 * Page arithmetic shared by the two list handlers (all listings, and the
 * comments of one listing): reading `page` and `limit` from the query string,
 * the zero-based start index, and the inclusive row window handed to
 * `.range(start, end)` of the query builder.
 */
module Pagination {
  import opened Wrappers
  import Envelope

  const DefaultPage := 1
  const DefaultLimit := 10

  /**
   * `parseInt(raw) || fallback`. The parsed value is `None` when parseInt
   * gives NaN; NaN and 0 are the falsy results, every other integer (a
   * negative one included) is kept.
   */
  function OrDefault(parsed: Option<int>, fallback: int): (r: int)
    ensures parsed.None? || parsed.value == 0 ==> r == fallback
    ensures parsed.Some? && parsed.value != 0 ==> r == parsed.value
    ensures fallback != 0 ==> r != 0
  {
    if parsed.Some? && parsed.value != 0 then parsed.value else fallback
  }

  datatype PageQuery = PageQuery(page: int, limit: int)

  /** The page and limit a list handler works with: never zero */
  function ReadQuery(page: Option<int>, limit: Option<int>): (q: PageQuery)
    ensures q.page != 0 && q.limit != 0
    ensures q.page == OrDefault(page, DefaultPage) && q.limit == OrDefault(limit, DefaultLimit)
  {
    PageQuery(OrDefault(page, DefaultPage), OrDefault(limit, DefaultLimit))
  }

  /** startIndex = (page - 1) * limit: the number of rows on the pages before */
  function Start(q: PageQuery): (s: int)
    ensures q.page >= 1 && q.limit >= 1 ==> s >= 0
    ensures q.page == 1 ==> s == 0
  {
    (q.page - 1) * q.limit
  }

  /** The inclusive upper bound handed to `.range`, so the window spans `limit` positions */
  function End(q: PageQuery): (e: int)
    ensures e - Start(q) + 1 == q.limit
  {
    Start(q) + q.limit - 1
  }

  /** Whether row position `i` lies in the window a page asks for */
  predicate OnPage(q: PageQuery, i: int) {
    Start(q) <= i <= End(q)
  }

  function Min(a: int, b: int): int { if a <= b then a else b }

  function Max(a: int, b: int): int { if a <= b then b else a }

  /** Page p ends right before page p + 1 begins, so the two windows never overlap */
  lemma NextPageAdjacent(page: int, limit: int)
    requires page >= 1 && limit >= 1
    ensures End(PageQuery(page, limit)) + 1 == Start(PageQuery(page + 1, limit))
    ensures forall i :: !(OnPage(PageQuery(page, limit), i) && OnPage(PageQuery(page + 1, limit), i))
  {
    assert Start(PageQuery(page + 1, limit)) == page * limit;
  }

  /** Every row position belongs to the window of exactly one page */
  lemma PageOfPosition(i: int, limit: int)
    requires i >= 0 && limit >= 1
    ensures OnPage(PageQuery(i / limit + 1, limit), i)
    ensures forall p :: p >= 1 && OnPage(PageQuery(p, limit), i) ==> p == i / limit + 1
  {
    var p := i / limit + 1;
    assert i == limit * (i / limit) + i % limit;
    assert Start(PageQuery(p, limit)) == (i / limit) * limit;
    assert End(PageQuery(p, limit)) == (i / limit) * limit + limit - 1;
    forall p' | p' >= 1 && OnPage(PageQuery(p', limit), i)
      ensures p' == p
    {
      if p' < p {
        LaterPageStartsAfter(p', p, limit);
        assert false;
      } else if p' > p {
        LaterPageStartsAfter(p, p', limit);
        assert false;
      }
    }
  }

  lemma LaterPageStartsAfter(p: int, p': int, limit: int)
    requires p < p' && limit >= 1
    ensures End(PageQuery(p, limit)) < Start(PageQuery(p', limit))
  {
    assert (p' - 1) * limit - (p - 1) * limit == (p' - p) * limit >= limit;
  }

  /**
   * `.range(from, to)` on an ordered result with a non-negative offset: the
   * rows at positions from..to that exist, in order.
   */
  function Window<T>(rows: seq<T>, from: int, to: int): (w: seq<T>)
    requires 0 <= from
    ensures |w| == Max(0, Min(to + 1, |rows|) - from)
    ensures forall k :: 0 <= k < |w| ==> from + k <= to && w[k] == rows[from + k]
    ensures from <= to + 1 ==> w == rows[Min(from, |rows|)..Min(to + 1, |rows|)]
  {
    var lo := Min(from, |rows|);
    rows[lo..Max(lo, Min(to + 1, |rows|))]
  }

  lemma StartNonNegative(page: int, limit: int)
    requires page >= 1 && limit >= 1
    ensures Start(PageQuery(page, limit)) >= 0
  {
  }

  /** The rows page `page` returns */
  function PageRows<T>(rows: seq<T>, page: int, limit: int): (w: seq<T>)
    requires page >= 1 && limit >= 1
    ensures |w| <= limit
    ensures var from := Start(PageQuery(page, limit));
      w == rows[Min(from, |rows|)..Min(from + limit, |rows|)]
  {
    var from := Start(PageQuery(page, limit));
    StartNonNegative(page, limit);
    Window(rows, from, from + limit - 1)
  }

  /** Pages 1..k read one after the other */
  function Paged<T>(rows: seq<T>, limit: int, k: nat): seq<T>
    requires limit >= 1
  {
    if k == 0 then [] else Paged(rows, limit, k - 1) + PageRows(rows, k, limit)
  }

  /** The rows before page k followed by page k are the rows before page k+1 */
  lemma AppendPage<T>(rows: seq<T>, limit: int, k: int)
    requires limit >= 1 && k >= 1
    ensures rows[..Min(Start(PageQuery(k, limit)), |rows|)] + PageRows(rows, k, limit)
      == rows[..Min(Start(PageQuery(k + 1, limit)), |rows|)]
  {
    var a := Start(PageQuery(k, limit));
    assert a >= 0 && a + limit == Start(PageQuery(k + 1, limit)) by {
      StartNonNegative(k, limit);
      NextPageAdjacent(k, limit);
    }
    var x, y := Min(a, |rows|), Min(a + limit, |rows|);
    assert rows[..x] + rows[x..y] == rows[..y];
  }

  /** Pages 1..k read one after the other are the rows before page k+1 */
  lemma {:induction false} PagedIsPrefix<T>(rows: seq<T>, limit: int, k: nat)
    requires limit >= 1
    ensures Paged(rows, limit, k) == rows[..Min(Start(PageQuery(k + 1, limit)), |rows|)]
  {
    if k > 0 {
      PagedIsPrefix(rows, limit, k - 1);
      AppendPage(rows, limit, k);
    }
  }

  /**
   * Reading pages 1 to totalPages (the count sendPaginatedSuccess reports)
   * returns every row exactly once, in order.
   */
  lemma PagesCoverRows<T>(rows: seq<T>, limit: int)
    requires limit >= 1
    ensures Envelope.TotalPages(|rows|, limit) >= 0
    ensures Paged(rows, limit, Envelope.TotalPages(|rows|, limit)) == rows
  {
    var n := Envelope.TotalPages(|rows|, limit);
    Envelope.TotalPagesNonNegative(|rows|, limit);
    PagedIsPrefix(rows, limit, n);
    assert Start(PageQuery(n + 1, limit)) == n * limit;
    assert Min(n * limit, |rows|) == |rows|;
  }

  /** 15 rows, page 2, limit 10: five rows come back, and there are two pages */
  lemma SecondPageOfFifteen<T>(rows: seq<T>)
    requires |rows| == 15
    ensures PageRows(rows, 2, 10) == rows[10..]
    ensures Envelope.TotalPages(|rows|, 10) == 2
  {
    var w := PageRows(rows, 2, 10);
    assert |w| == 5;
    assert forall k :: 0 <= k < 5 ==> w[k] == rows[10 + k];
  }
}
