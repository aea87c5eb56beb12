/** LIMIT/OFFSET paging over an ordered result. */
module Paging {

  function Min(a: int, b: int): int {
    if a < b then a else b
  }

  /** OFFSET o LIMIT n over rows in their fixed order. */
  function Slice<T>(rows: seq<T>, limit: int, offset: int): seq<T>
    requires limit >= 0 && offset >= 0
  {
    var from := Min(offset, |rows|);
    rows[from..Min(from + limit, |rows|)]
  }

  /** Page p, counted from 1, of a listing with perPage rows on a page. */
  function Page<T>(rows: seq<T>, p: int, perPage: int): seq<T>
    requires p >= 1 && perPage >= 1
  {
    OffsetNonNegative(p, perPage);
    Slice(rows, perPage, (p - 1) * perPage)
  }

  lemma OffsetNonNegative(p: int, perPage: int)
    requires p >= 1 && perPage >= 1
    ensures (p - 1) * perPage >= 0 && p * perPage == (p - 1) * perPage + perPage
  {
  }

  function PageCount(total: nat, perPage: int): nat
    requires perPage >= 1
  {
    (total + perPage - 1) / perPage
  }

  /** Pages 1 to n, one after the other. */
  function Pages<T>(rows: seq<T>, n: nat, perPage: int): seq<T>
    requires perPage >= 1
  {
    if n == 0 then [] else Pages(rows, n - 1, perPage) + Page(rows, n, perPage)
  }

  lemma SliceExtendsPrefix<T>(rows: seq<T>, limit: int, offset: int)
    requires limit >= 0 && offset >= 0
    ensures rows[..Min(offset, |rows|)] + Slice(rows, limit, offset) == rows[..Min(offset + limit, |rows|)]
  {
  }

  lemma {:induction false} PagesArePrefix<T>(rows: seq<T>, n: nat, perPage: int)
    requires perPage >= 1
    ensures n * perPage >= 0 && Pages(rows, n, perPage) == rows[..Min(n * perPage, |rows|)]
  {
    if n > 0 {
      PagesArePrefix(rows, n - 1, perPage);
      OffsetNonNegative(n, perPage);
      SliceExtendsPrefix(rows, perPage, (n - 1) * perPage);
    }
  }

  lemma LastPageReaches(total: nat, perPage: int)
    requires perPage >= 1
    ensures var n := PageCount(total, perPage);
      n * perPage >= total && (n > 0 ==> (n - 1) * perPage < total)
  {
    var n := PageCount(total, perPage);
    assert total + perPage - 1 == perPage * n + (total + perPage - 1) % perPage;
    assert n * perPage == perPage * n;
    assert (n - 1) * perPage == n * perPage - perPage;
  }

  /** Reading pages 1 to ceil(total / perPage) yields every row once, in order. */
  lemma AllPagesAreAllRows<T>(rows: seq<T>, perPage: int)
    requires perPage >= 1
    ensures Pages(rows, PageCount(|rows|, perPage), perPage) == rows
  {
    PagesArePrefix(rows, PageCount(|rows|, perPage), perPage);
    LastPageReaches(|rows|, perPage);
  }

  lemma MulMonotone(a: int, b: int, k: int)
    requires a <= b && k >= 1
    ensures a * k <= b * k
  {
  }

  lemma PageOfIndex(i: nat, p: int, perPage: int)
    requires perPage >= 1
    ensures (p - 1) * perPage <= i < p * perPage <==> p == i / perPage + 1
    ensures i == (i / perPage) * perPage + i % perPage
  {
    var q := i / perPage;
    assert i == q * perPage + i % perPage;
    assert (q + 1) * perPage == q * perPage + perPage;
    if p - 1 < q {
      MulMonotone(p, q, perPage);
    } else if q < p - 1 {
      MulMonotone(q + 1, p - 1, perPage);
    }
  }

  /** Row i is on page p iff p is i / perPage + 1, and then at place i % perPage: pages are disjoint. */
  lemma RowIsOnOnePage<T>(rows: seq<T>, i: nat, p: int, perPage: int)
    requires perPage >= 1 && p >= 1 && i < |rows|
    ensures p == i / perPage + 1 ==>
      i % perPage < |Page(rows, p, perPage)| && Page(rows, p, perPage)[i % perPage] == rows[i]
    ensures (p - 1) * perPage <= i < (p - 1) * perPage + |Page(rows, p, perPage)| <==> p == i / perPage + 1
  {
    OffsetNonNegative(p, perPage);
    PageOfIndex(i, p, perPage);
  }

  /** Only the last page, or one past it, is not full. */
  lemma ShortPageIsLast<T>(rows: seq<T>, p: int, perPage: int)
    requires perPage >= 1 && p >= 1
    ensures |Page(rows, p, perPage)| < perPage ==> PageCount(|rows|, perPage) <= p
  {
    OffsetNonNegative(p, perPage);
    LastPageReaches(|rows|, perPage);
    if p < PageCount(|rows|, perPage) {
      MulMonotone(p, PageCount(|rows|, perPage) - 1, perPage);
    }
  }
}
