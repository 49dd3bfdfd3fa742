/** `PagedList<T>`: the page of items plus the page arithmetic, and the
    LINQ `Skip`/`Take` slice that `CreateAsync` takes. */
module Paging {
  import opened Common
  import Sequences

  /** totalPages is None when the page size is 0: the source then converts an
      infinite or NaN double to int, which the .NET runtime leaves unspecified. */
  datatype PagedList<T> = PagedList(items: seq<T>, pageNumber: int, totalPages: Option<int>, totalCount: int)
  {
    predicate HasPreviousPage() { pageNumber > 1 }
    predicate HasNextPage() { totalPages.Some? && pageNumber < totalPages.value }
  }

  /** (int)Math.Ceiling(count / (double)pageSize), for a count >= 0. */
  function TotalPages(count: nat, pageSize: int): (r: Option<int>)
    ensures pageSize == 0 <==> r.None?
    ensures pageSize > 0 ==> r.Some? && (r.value - 1) * pageSize < count <= r.value * pageSize
    ensures pageSize < 0 ==> r.Some? && r.value <= 0
  {
    if pageSize > 0 then
      CeilingBounds(count, pageSize);
      Some((count + pageSize - 1) / pageSize)
    else if pageSize < 0 then
      Some(-(count / -pageSize))
    else None
  }

  lemma MulNonNegative(a: int, b: int)
    requires a >= 0 && b >= 0
    ensures a * b >= 0
  {
  }

  lemma Distribute(a: int, b: int, d: int)
    ensures (a - b) * d == a * d - b * d
  {
  }

  /** Floor division bounds, stated with multiplication. */
  lemma DivBounds(x: int, d: int)
    requires d > 0
    ensures (x / d) * d <= x < (x / d) * d + d
  {
  }

  lemma CeilingBounds(count: nat, d: int)
    requires d > 0
    ensures var q := (count + d - 1) / d; (q - 1) * d < count <= q * d
  {
    var q := (count + d - 1) / d;
    DivBounds(count + d - 1, d);
    Distribute(q, 1, d);
  }

  /** For a positive divisor, k <= x / d exactly when k * d <= x. */
  lemma {:induction false} LeqDiv(k: int, x: int, d: int)
    requires d > 0
    ensures k <= x / d <==> k * d <= x
  {
    var q := x / d;
    DivBounds(x, d);
    if k <= q {
      MulNonNegative(q - k, d);
      Distribute(q, k, d);
    } else {
      MulNonNegative(k - q - 1, d);
      Distribute(k - q, 1, d);
      Distribute(k, q, d);
    }
  }

  /** The constructor: stores items, count and page number, derives TotalPages. */
  function NewPagedList<T>(items: seq<T>, count: nat, pageNumber: int, pageSize: int): (p: PagedList<T>)
    ensures p.items == items && p.totalCount == count && p.pageNumber == pageNumber
    ensures p.totalPages == TotalPages(count, pageSize)
    ensures p.HasPreviousPage() <==> pageNumber > 1
  {
    PagedList(items, pageNumber, TotalPages(count, pageSize), count)
  }

  /** A later page exists exactly when the pages up to this one do not
      already cover every item. */
  lemma HasNextPageIffItemsRemain<T>(items: seq<T>, count: nat, pageNumber: int, pageSize: int)
    requires pageSize > 0
    ensures NewPagedList(items, count, pageNumber, pageSize).HasNextPage() <==> pageNumber * pageSize < count
  {
    var x := count + pageSize - 1;
    LeqDiv(pageNumber + 1, x, pageSize);
    assert (pageNumber + 1) * pageSize == pageNumber * pageSize + pageSize;
  }

  /** LINQ Skip: a count at or below zero skips nothing. */
  function Skip<T>(s: seq<T>, n: int): (r: seq<T>)
    ensures n <= 0 ==> r == s
    ensures n >= |s| ==> r == []
    ensures 0 <= n <= |s| ==> r == s[n..]
  {
    if n <= 0 then s else if n >= |s| then [] else s[n..]
  }

  /** LINQ Take: a count at or below zero takes nothing. */
  function Take<T>(s: seq<T>, n: int): (r: seq<T>)
    ensures n <= 0 ==> r == []
    ensures n >= |s| ==> r == s
    ensures 0 <= n <= |s| ==> r == s[..n]
  {
    if n <= 0 then [] else if n >= |s| then s else s[..n]
  }

  /** The offset (pageNumber - 1) * pageSize computed exactly, as intended. */
  function Offset(pageNumber: int, pageSize: int): int {
    (pageNumber - 1) * pageSize
  }

  lemma OffsetNonNegative(pageNumber: int, pageSize: int)
    ensures pageNumber >= 1 && pageSize >= 0 ==> Offset(pageNumber, pageSize) >= 0
  {
    if pageNumber >= 1 && pageSize >= 0 {
      assert (pageNumber - 1) * pageSize >= 0;
    }
  }

  /** The same offset as C# computes it: unchecked 32-bit multiplication. */
  function OffsetAsWritten(pageNumber: Int32, pageSize: Int32): Int32 {
    Wrap32(Wrap32(pageNumber - 1) * pageSize)
  }

  /** Skip(offset).Take(count) as SQL Server runs it once EF Core translates
      it to OFFSET ... FETCH NEXT: a negative offset or a row count below one
      is an error, and otherwise the result is the in-memory slice. */
  function SqlSkipTake<T>(source: seq<T>, offset: int, count: int): (r: Fallible<seq<T>>)
    ensures r.Throws? <==> offset < 0 || count < 1
    ensures r.Ok? ==> r.value == source[Min(offset, |source|)..Min(offset + count, |source|)]
  {
    if offset < 0 || count < 1 then Throws("SqlException")
    else Ok(Take(Skip(source, offset), count))
  }

  /** The wrapped offset goes negative on a page number a client may send:
      page 21474838 of 100 items would start at 2147483700, past Int32.MaxValue.
      On SQL Server the query is then rejected; in-memory LINQ would instead
      skip nothing and return the first page. */
  lemma OffsetOverflows()
    ensures Offset(21474838, 100) == 2147483700
    ensures OffsetAsWritten(21474838, 100) == -2147483596
    ensures SqlSkipTake([1, 2, 3], OffsetAsWritten(21474838, 100), 100).Throws?
    ensures SqlSkipTake([1, 2, 3], Offset(21474838, 100), 100) == Ok([])
    ensures Skip([1, 2, 3], OffsetAsWritten(21474838, 100)) == [1, 2, 3]
  {
  }

  /** Skip((pageNumber - 1) * pageSize).Take(pageSize). */
  function Page<T>(source: seq<T>, pageNumber: int, pageSize: int): (items: seq<T>)
    ensures |items| <= Max(0, pageSize)
    ensures pageNumber >= 1 && pageSize >= 1 ==>
      && 0 <= Offset(pageNumber, pageSize)
      && items == source[Min(Offset(pageNumber, pageSize), |source|)..Min(Offset(pageNumber, pageSize) + pageSize, |source|)]
  {
    OffsetNonNegative(pageNumber, pageSize);
    Take(Skip(source, Offset(pageNumber, pageSize)), pageSize)
  }

  /** While the exact offset fits in an int, the query as written gives
      exactly Page on SQL Server: the overflow is the only place they part. */
  lemma AsWrittenIsPageWithinRange<T>(source: seq<T>, pageNumber: Int32, pageSize: Int32)
    requires pageNumber >= 1 && pageSize >= 1 && Offset(pageNumber, pageSize) < 0x8000_0000
    ensures SqlSkipTake(source, OffsetAsWritten(pageNumber, pageSize), pageSize) == Ok(Page(source, pageNumber, pageSize))
  {
    OffsetNonNegative(pageNumber, pageSize);
    assert OffsetAsWritten(pageNumber, pageSize) == Offset(pageNumber, pageSize);
  }

  /** CreateAsync: the count of the whole source and the requested page. */
  function CreatePage<T>(source: seq<T>, pageNumber: int, pageSize: int): (p: PagedList<T>)
    ensures p.totalCount == |source| && p.pageNumber == pageNumber
    ensures p.items == Page(source, pageNumber, pageSize)
    ensures p.totalPages == TotalPages(|source|, pageSize)
  {
    NewPagedList(Page(source, pageNumber, pageSize), |source|, pageNumber, pageSize)
  }

  /** A page past the last one is empty, and still reports the full count. */
  lemma PastLastPageEmpty<T>(source: seq<T>, pageNumber: int, pageSize: int)
    requires pageSize >= 1
    requires pageNumber > TotalPages(|source|, pageSize).value
    ensures CreatePage(source, pageNumber, pageSize).items == []
    ensures CreatePage(source, pageNumber, pageSize).totalCount == |source|
  {
    var t := TotalPages(|source|, pageSize).value;
    assert t >= 0 by {
      LeqDiv(0, |source| + pageSize - 1, pageSize);
    }
    MulNonNegative(pageNumber - 1 - t, pageSize);
    Distribute(pageNumber - 1, t, pageSize);
    assert Offset(pageNumber, pageSize) >= |source|;
  }

  /** Reading pages 1, 2, ... n in turn yields the source's first items in
      source order: the pages tile the source without gaps or overlaps. */
  function Pages<T>(source: seq<T>, n: nat, pageSize: int): seq<T>
    requires pageSize >= 1
  {
    if n == 0 then [] else Pages(source, n - 1, pageSize) + Page(source, n, pageSize)
  }

  lemma {:induction false} PagesArePrefix<T>(source: seq<T>, n: nat, pageSize: int, end: int)
    requires pageSize >= 1 && end == n * pageSize
    ensures Pages(source, n, pageSize) == source[..Min(end, |source|)]
  {
    if n > 0 {
      var o := end - pageSize;
      assert o == (n - 1) * pageSize && o == Offset(n, pageSize) by {
        NextOffset(n, pageSize);
      }
      PagesArePrefix(source, n - 1, pageSize, o);
      ConcatSlices(source, o, end);
    }
  }

  /** A prefix followed by the slice after it is the longer prefix. */
  lemma ConcatSlices<T>(s: seq<T>, a: int, b: int)
    requires 0 <= a <= b
    ensures s[..Min(a, |s|)] + s[Min(a, |s|)..Min(b, |s|)] == s[..Min(b, |s|)]
  {
  }

  /** Page n starts where the first n - 1 pages end and ends where the first
      n pages end. */
  lemma NextOffset(n: int, pageSize: int)
    ensures Offset(n, pageSize) == (n - 1) * pageSize
    ensures Offset(n, pageSize) + pageSize == n * pageSize
  {
    Distribute(n, 1, pageSize);
  }

  /** All TotalPages pages together hold exactly the source. */
  lemma AllPagesCoverSource<T>(source: seq<T>, pageSize: int)
    requires pageSize >= 1
    ensures Pages(source, TotalPages(|source|, pageSize).value, pageSize) == source
  {
    var t := TotalPages(|source|, pageSize).value;
    assert t >= 0 by {
      LeqDiv(0, |source| + pageSize - 1, pageSize);
    }
    PagesArePrefix(source, t, pageSize, t * pageSize);
  }

  /** A page of a sorted source is sorted. */
  lemma PageKeepsOrder<T>(source: seq<T>, page: int, pageSize: int, key: T -> int)
    requires page >= 1 && pageSize >= 1 && Sequences.SortedBy(source, key)
    ensures Sequences.SortedBy(Page(source, page, pageSize), key)
  {
    var r := Page(source, page, pageSize);
    var o := Offset(page, pageSize);
    OffsetNonNegative(page, pageSize);
    forall i, j | 0 <= i < j < |r| ensures key(r[i]) <= key(r[j]) {
      assert r[i] == source[o + i] && r[j] == source[o + j];
      assert 0 <= o + i < o + j < |source|;
    }
  }

  /** Every element of a page comes from the source. */
  lemma PageElementsFromSource<T>(source: seq<T>, page: int, pageSize: int, x: T)
    requires x in Page(source, page, pageSize)
    ensures x in source
  {
    OffsetNonNegative(page, pageSize);
  }
}
