/** The pager of app/utils/pagination.py: page number and page size become an
    OFFSET/LIMIT window over an ordered query result, plus paging metadata. */
module Pagination {

  /** The dictionary `paginate` returns. */
  datatype Page<T> = Page(
    data: seq<T>,
    currentResult: nat,
    totalResult: nat,
    currentPageNumber: int,
    totalPageNumber: nat)

  /** The PaginationMeta response record. It is declared in
      app/utils/pagination.py but used nowhere, since `paginate` returns the
      plain dictionary `Page`; nothing in this model uses it either. */
  datatype PaginationMeta = PaginationMeta(currentPage: int, totalPages: int, totalResults: int)

  function Min(a: int, b: int): int { if a <= b then a else b }

  /** Number of rows that remain after skipping `offset` rows of `n`. */
  function Remaining(n: nat, offset: int): nat { if offset <= n then n - offset else 0 }

  /** `(page_number - 1) * page_size` */
  function Offset(pageNumber: int, pageSize: int): int
  {
    (pageNumber - 1) * pageSize
  }

  lemma OffsetNonNegative(pageNumber: int, pageSize: int)
    requires pageNumber >= 1 && pageSize >= 0
    ensures Offset(pageNumber, pageSize) >= 0
  {
  }

  /** Each page starts one page size after the previous one. */
  lemma OffsetNext(pageNumber: int, pageSize: int)
    ensures Offset(pageNumber + 1, pageSize) == Offset(pageNumber, pageSize) + pageSize
  {
  }

  lemma OffsetMonotone(i: int, j: int, pageSize: int)
    requires i <= j && pageSize >= 0
    ensures Offset(i, pageSize) <= Offset(j, pageSize)
  {
    assert Offset(j, pageSize) - Offset(i, pageSize) == (j - i) * pageSize;
  }

  lemma MulStrict(a: int, b: int, c: int)
    requires c >= 1 && a * c < b * c
    ensures a < b
  {
    assert (b - a) * c == b * c - a * c;
  }

  /** `query.offset(offset).limit(limit).all()`: the rows from position `offset`
      on, at most `limit` of them; an offset past the end yields no rows. */
  function Window<T>(items: seq<T>, offset: nat, limit: nat): (w: seq<T>)
    ensures |w| == Min(limit, Remaining(|items|, offset))
    ensures forall i :: 0 <= i < |w| ==> offset + i < |items| && w[i] == items[offset + i]
  {
    items[Min(offset, |items|)..Min(offset + limit, |items|)]
  }

  /** Rows before the window, then the window, are the rows before its end. */
  lemma WindowExtendsPrefix<T>(items: seq<T>, offset: nat, limit: nat)
    ensures items[..Min(offset, |items|)] + Window(items, offset, limit) == items[..Min(offset + limit, |items|)]
  {
    var lo, hi := Min(offset, |items|), Min(offset + limit, |items|);
    assert items[..lo] + items[lo..hi] == items[..hi];
  }

  /** The exact integer value of `ceil(total / size)`. */
  function CeilDiv(total: nat, size: nat): (n: nat)
    requires size >= 1
    ensures n * size >= total
    ensures n == 0 || (n - 1) * size < total
    ensures total == 0 ==> n == 0
  {
    var n := (total + size - 1) / size;
    var rem := (total + size - 1) % size;
    assert total + size - 1 == n * size + rem;
    assert (n - 1) * size == n * size - size;
    n
  }

  /** `ceil(total / size)` is the least page count whose pages hold every item. */
  lemma CeilDivIsLeast(total: nat, size: nat, m: nat)
    requires size >= 1 && m * size >= total
    ensures CeilDiv(total, size) <= m
  {
    var n := CeilDiv(total, size);
    if n >= 1 {
      MulStrict(n - 1, m, size);
    }
  }

  /** A page past the last page starts at or past the last row. */
  lemma PastLastPageOffset(total: nat, pageNumber: int, pageSize: int)
    requires pageSize >= 1 && pageNumber > CeilDiv(total, pageSize)
    ensures Offset(pageNumber, pageSize) >= total
  {
    var n := CeilDiv(total, pageSize);
    OffsetMonotone(n + 1, pageNumber, pageSize);
    assert Offset(n + 1, pageSize) == n * pageSize;
  }

  /** The rows of one page: the window at the page's offset, `page_size` wide. */
  function PageData<T>(items: seq<T>, pageNumber: int, pageSize: int): (d: seq<T>)
    requires pageNumber >= 1 && pageSize >= 1
    ensures |d| == Min(pageSize, Remaining(|items|, Offset(pageNumber, pageSize)))
    ensures forall i :: 0 <= i < |d| ==>
              Offset(pageNumber, pageSize) + i < |items| && d[i] == items[Offset(pageNumber, pageSize) + i]
  {
    OffsetNonNegative(pageNumber, pageSize);
    Window(items, Offset(pageNumber, pageSize), pageSize)
  }

  /** `paginate(query, page_number, page_size)`.  A page size of 0 would divide
      by zero and a page number of 0 or less would give a negative offset, so
      both must be at least 1. */
  function Paginate<T>(items: seq<T>, pageNumber: int, pageSize: int): (p: Page<T>)
    requires pageNumber >= 1 && pageSize >= 1
    ensures p.totalResult == |items|
    ensures p.currentPageNumber == pageNumber
    ensures p.currentResult == |p.data| <= pageSize
    ensures |p.data| == Min(pageSize, Remaining(|items|, Offset(pageNumber, pageSize)))
    ensures forall i :: 0 <= i < |p.data| ==>
              Offset(pageNumber, pageSize) + i < |items| && p.data[i] == items[Offset(pageNumber, pageSize) + i]
    ensures p.totalPageNumber == CeilDiv(|items|, pageSize)
  {
    var data := PageData(items, pageNumber, pageSize);
    Page(data, |data|, |items|, pageNumber, CeilDiv(|items|, pageSize))
  }

  /** The rows of pages 1..k, in page order. */
  ghost function PagesUpTo<T>(items: seq<T>, pageSize: int, k: nat): seq<T>
    requires pageSize >= 1
  {
    if k == 0 then [] else PagesUpTo(items, pageSize, k - 1) + Paginate(items, k, pageSize).data
  }

  /** Pages 1..k together are exactly the rows before page k + 1, that is the
      first k * page_size rows. */
  lemma {:induction false} PagesUpToIsPrefix<T>(items: seq<T>, pageSize: int, k: nat)
    requires pageSize >= 1
    ensures PagesUpTo(items, pageSize, k) == items[..Min(Offset(k + 1, pageSize), |items|)]
  {
    if k == 0 {
      assert Offset(1, pageSize) == 0;
    } else {
      PagesUpToIsPrefix(items, pageSize, k - 1);
      OffsetNonNegative(k, pageSize);
      OffsetNext(k, pageSize);
      var off := Offset(k, pageSize);
      assert Paginate(items, k, pageSize).data == Window(items, off, pageSize);
      WindowExtendsPrefix(items, off, pageSize);
    }
  }

  /** Pages 1..total_page_number, concatenated in order, give back every row. */
  lemma PagesCoverAll<T>(items: seq<T>, pageSize: int)
    requires pageSize >= 1
    ensures PagesUpTo(items, pageSize, Paginate(items, 1, pageSize).totalPageNumber) == items
  {
    var n := CeilDiv(|items|, pageSize);
    PagesUpToIsPrefix(items, pageSize, n);
    assert Offset(n + 1, pageSize) == n * pageSize;
    assert items[..|items|] == items;
  }

  /** Distinct pages never share a row: every position that page i shows comes
      before every position that a later page j shows. */
  lemma PagesDisjoint<T>(items: seq<T>, pageSize: int, i: int, j: int, a: int, b: int)
    requires pageSize >= 1 && 1 <= i < j
    requires 0 <= a < |Paginate(items, i, pageSize).data|
    requires 0 <= b < |Paginate(items, j, pageSize).data|
    ensures Offset(i, pageSize) + a < Offset(j, pageSize) + b
  {
    OffsetNext(i, pageSize);
    OffsetMonotone(i + 1, j, pageSize);
  }

  /** Asking for a page past the last one is not an error: it is empty and
      carries the same totals as any other page. */
  lemma PastLastPage<T>(items: seq<T>, pageNumber: int, pageSize: int)
    requires pageSize >= 1 && pageNumber >= 1
    requires pageNumber > Paginate(items, 1, pageSize).totalPageNumber
    ensures Paginate(items, pageNumber, pageSize).data == []
    ensures Paginate(items, pageNumber, pageSize).currentPageNumber == pageNumber
    ensures Paginate(items, pageNumber, pageSize).totalResult == |items|
    ensures Paginate(items, pageNumber, pageSize).totalPageNumber == Paginate(items, 1, pageSize).totalPageNumber
  {
    PastLastPageOffset(|items|, pageNumber, pageSize);
  }

  /** 25 rows, page 3 of size 10: offset 20, the last 5 rows, 3 pages. */
  lemma TwentyFiveRowsPageThree<T>(items: seq<T>)
    requires |items| == 25
    ensures Offset(3, 10) == 20
    ensures Paginate(items, 3, 10).data == items[20..]
    ensures Paginate(items, 3, 10).currentResult == 5
    ensures Paginate(items, 3, 10).totalPageNumber == 3
  {
    var p := Paginate(items, 3, 10);
    CeilDivIsLeast(25, 10, 3);
    assert p.data == items[20..];
  }
}
