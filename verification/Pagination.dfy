/** Page arithmetic on 64-bit integers and the response envelope (search/types.go). */
module Pagination {

  const TWO_63: int := 0x8000_0000_0000_0000
  const TWO_64: int := 0x1_0000_0000_0000_0000

  predicate FitsInt64(x: int) {
    -TWO_63 <= x < TWO_63
  }

  type Int64 = x: int | FitsInt64(x)

  /** Two's-complement wrap-around of Go's int64 and (64-bit) int arithmetic. */
  function Wrap64(x: int): (r: Int64)
    ensures r == x <==> FitsInt64(x)
    ensures (r - x) % TWO_64 == 0
  {
    (x + TWO_63) % TWO_64 - TWO_63
  }

  /** Go's `/`, which truncates toward zero. */
  function QuoTrunc(a: int, b: int): int
    requires b > 0
  {
    if a >= 0 then a / b else -((-a) / b)
  }

  const DEFAULT_PAGE_SIZE: Int64 := 10
  const DEFAULT_MAX_PAGE_SIZE: Int64 := 100

  datatype Page = Page(pageSize: Int64, pageNumber: Int64)

  datatype PagedViewModel = PagedViewModel(
    pageSize: Int64,
    pageNumber: Int64,
    totalCount: Int64,
    totalPages: Int64,
    hasNextPage: bool,
    hasPreviousPage: bool,
    isEstimatedCount: bool)

  function EffectiveMax(max: Int64): (m: Int64)
    ensures m >= 1
  {
    if max <= 0 then DEFAULT_MAX_PAGE_SIZE else max
  }

  function SizeWithMax(p: Page, max: Int64): (size: Int64)
    ensures 1 <= size <= EffectiveMax(max)
    ensures 1 <= p.pageSize <= EffectiveMax(max) ==> size == p.pageSize
  {
    var m := EffectiveMax(max);
    if p.pageSize <= 0 then (if DEFAULT_PAGE_SIZE > m then m else DEFAULT_PAGE_SIZE)
    else if p.pageSize > m then m
    else p.pageSize
  }

  function Number(p: Page): (n: Int64)
    ensures n >= 1
  {
    if p.pageNumber <= 0 then 1 else p.pageNumber
  }

  function OffsetWithMax(p: Page, max: Int64): Int64 {
    Wrap64((Number(p) - 1) * SizeWithMax(p, max))
  }

  function TotalPagesWithMax(p: Page, total: Int64, max: Int64): Int64 {
    if total <= 0 then 0
    else
      var size := SizeWithMax(p, max);
      Wrap64(QuoTrunc(Wrap64(Wrap64(total + size) - 1), size))
  }

  function NewPagedViewModel(p: Page, total: Int64, estimated: bool, max: Int64): PagedViewModel {
    var totalPages := TotalPagesWithMax(p, total, max);
    PagedViewModel(
      SizeWithMax(p, max), Number(p), total, totalPages,
      Number(p) < totalPages, Number(p) > 1, estimated)
  }

  /** The page-size cap a ResourceConfig applies in Compile. */
  function ConfigMaxPageSize(maxPageSize: Int64): Int64 {
    if maxPageSize > 0 then maxPageSize else DEFAULT_MAX_PAGE_SIZE
  }

  // ---- What a request's page settings come to ----

  function AtMost(a: int, b: int): int {
    if a < b then a else b
  }

  /** Ten rows unless the request says otherwise, and never more than the resource allows (100 unless it says so). */
  function PageSizeOf(p: Page, maxPageSize: Int64): (size: int)
    ensures size >= 1
  {
    AtMost(if p.pageSize >= 1 then p.pageSize else 10, if maxPageSize >= 1 then maxPageSize else 100)
  }

  /** The first page unless the request says otherwise. */
  function PageNumberOf(p: Page): int {
    if p.pageNumber >= 1 then p.pageNumber else 1
  }

  lemma SizeIsClamped(p: Page, maxPageSize: Int64)
    ensures SizeWithMax(p, maxPageSize) == SizeWithMax(p, ConfigMaxPageSize(maxPageSize)) == PageSizeOf(p, maxPageSize)
    ensures Number(p) == PageNumberOf(p)
  {
  }

  /** The OFFSET that is executed, wrapped as 64-bit multiplication wraps it. */
  function ExecutedOffset(p: Page, maxPageSize: Int64): Int64 {
    Wrap64((PageNumberOf(p) - 1) * PageSizeOf(p, maxPageSize))
  }

  lemma OffsetIsExecuted(p: Page, maxPageSize: Int64)
    ensures OffsetWithMax(p, ConfigMaxPageSize(maxPageSize)) == ExecutedOffset(p, maxPageSize)
  {
    SizeIsClamped(p, maxPageSize);
  }

  // ---- When the machine arithmetic is exact ----

  lemma ProductNonNegative(a: int, b: int)
    requires a >= 0 && b >= 0
    ensures a * b >= 0
  {
  }

  /** The executed OFFSET is the mathematical one iff that number fits. */
  lemma OffsetExactIff(p: Page, max: Int64)
    ensures OffsetWithMax(p, max) == (Number(p) - 1) * SizeWithMax(p, max)
      <==> (Number(p) - 1) * SizeWithMax(p, max) < TWO_63
  {
    hide Wrap64;
    ProductNonNegative(Number(p) - 1, SizeWithMax(p, max));
  }

  /** Number of pages needed for `total` rows. */
  function CeilDiv(total: nat, size: nat): nat
    requires size > 0
  {
    (total + size - 1) / size
  }

  lemma WrapOnce(x: int)
    requires TWO_63 <= x < TWO_64
    ensures Wrap64(x) == x - TWO_64
  {
  }

  lemma WrapThenSubtract(x: int)
    requires 1 <= x < TWO_64
    ensures Wrap64(Wrap64(x) - 1) == Wrap64(x - 1)
  {
    if x < TWO_63 {
      assert Wrap64(x) == x;
    } else {
      WrapOnce(x);
      if x == TWO_63 {
        assert Wrap64(-TWO_63 - 1) == TWO_63 - 1;
      } else {
        WrapOnce(x - 1);
      }
    }
  }

  /** TotalPages is the ceiling of total/size iff total+size-1 fits; past that it is not positive. */
  lemma TotalPagesExactIff(p: Page, total: Int64, max: Int64)
    requires total > 0
    ensures
      var size := SizeWithMax(p, max);
      TotalPagesWithMax(p, total, max) == CeilDiv(total, size) <==> total + size - 1 < TWO_63
  {
    hide Wrap64;
    var size := SizeWithMax(p, max);
    var sum := total + size - 1;
    assert FitsInt64(total) && FitsInt64(SizeWithMax(p, max));
    WrapThenSubtract(total + size);
    if sum < TWO_63 {
      DivBounds(sum, size);
      assert TotalPagesWithMax(p, total, max) == Wrap64(sum / size) == sum / size;
    } else {
      WrapOnce(sum);
      DivBounds(TWO_64 - sum, size);
      assert TotalPagesWithMax(p, total, max) == Wrap64(-((TWO_64 - sum) / size)) <= 0;
      CeilDivBounds(total, size);
    }
  }

  lemma DivBounds(a: nat, b: nat)
    requires b > 0
    ensures 0 <= a / b <= a
    ensures a / b * b <= a < a / b * b + b
  {
    var q := a / b;
    assert a == q * b + a % b;
    assert q <= q * b by {
      MulAtLeast(q, b);
    }
  }

  lemma MulAtLeast(q: int, b: int)
    requires q >= 0 && b >= 1
    ensures q <= q * b
  {
    assert q * b == q + q * (b - 1);
    assert q * (b - 1) >= 0;
  }

  /** The defining property of the ceiling: the last page is reached and not passed. */
  lemma CeilDivBounds(total: nat, size: nat)
    requires size > 0
    ensures var n := CeilDiv(total, size); total <= n * size && (total > 0 ==> n >= 1 && (n - 1) * size < total)
    ensures total == 0 ==> CeilDiv(total, size) == 0
  {
    var n := CeilDiv(total, size);
    DivBounds(total + size - 1, size);
    assert (n - 1) * size == n * size - size;
    if total == 0 && n > 0 {
      MulMonotone(1, n, size);
    }
  }

  lemma MulMonotone(a: int, b: int, size: int)
    requires a <= b && size >= 0
    ensures a * size <= b * size
  {
    assert b * size - a * size == (b - a) * size;
    assert (b - a) * size >= 0;
  }

  /** `n` pages of `size` fall short of `total` rows iff `n` is less than the ceiling. */
  lemma BeforeLastPageIff(n: nat, total: nat, size: nat)
    requires size > 0
    ensures n < CeilDiv(total, size) <==> n * size < total
  {
    var c := CeilDiv(total, size);
    CeilDivBounds(total, size);
    if n < c {
      MulMonotone(n, c - 1, size);
    } else {
      MulMonotone(c, n, size);
    }
  }

  // ---- Pages partition the result ----

  /** Rows returned by LIMIT limit OFFSET offset. */
  function PageRows<T>(rows: seq<T>, limit: int, offset: int): seq<T>
    requires limit >= 0 && offset >= 0
  {
    if offset >= |rows| then []
    else if offset + limit >= |rows| then rows[offset..]
    else rows[offset..offset + limit]
  }

  /** `page` is up to `limit` of the rows after the first `offset`. */
  ghost predicate IsPage<T>(rows: seq<T>, limit: nat, offset: nat, page: seq<T>) {
    && |page| == AtMost(limit, if offset < |rows| then |rows| - offset else 0)
    && forall i :: 0 <= i < |page| ==> page[i] == rows[offset + i]
  }

  lemma PageRowsIsPage<T>(rows: seq<T>, limit: nat, offset: nat)
    ensures IsPage(rows, limit, offset, PageRows(rows, limit, offset))
  {
  }

  /** Pages 1..n, one after the other, as the executed LIMIT and OFFSET deliver them. */
  function PagesUpTo<T>(rows: seq<T>, p: Page, max: Int64, n: nat): seq<T>
    requires n < TWO_63
  {
    if n == 0 then []
    else
      var q := p.(pageNumber := n);
      var offset := OffsetWithMax(q, max);
      PagesUpTo(rows, p, max, n - 1) + (if offset >= 0 then PageRows(rows, SizeWithMax(p, max), offset) else [])
  }

  lemma PageExtendsPrefix<T>(rows: seq<T>, limit: nat, offset: nat)
    requires offset < |rows|
    ensures rows[..offset] + PageRows(rows, limit, offset) == rows[..AtMost(offset + limit, |rows|)]
  {
  }

  lemma {:induction false} PagesArePrefix<T>(rows: seq<T>, p: Page, max: Int64, n: nat)
    requires n < TWO_63 && |rows| < TWO_63 && (n == 0 || (n - 1) * SizeWithMax(p, max) < |rows|)
    ensures n * SizeWithMax(p, max) >= 0
    ensures PagesUpTo(rows, p, max, n) == rows[..AtMost(n * SizeWithMax(p, max), |rows|)]
  {
    hide Wrap64;
    var size := SizeWithMax(p, max);
    ProductNonNegative(n, size);
    if n == 0 {
    } else {
      var q := p.(pageNumber := n);
      ProductNonNegative(n - 1, size);
      OffsetExactIff(q, max);
      var offset := (n - 1) * size;
      assert OffsetWithMax(q, max) == offset;
      if n > 1 {
        MulMonotone(n - 2, n - 1, size);
      }
      PagesArePrefix(rows, p, max, n - 1);
      PageExtendsPrefix(rows, size, offset);
      assert n * size == offset + size;
    }
  }

  /**
   Every row appears on exactly one page, in order: the pages 1..TotalPages put together are
   the result itself.
   */
  lemma PagesPartitionResult<T>(rows: seq<T>, p: Page, max: Int64)
    requires |rows| + SizeWithMax(p, max) - 1 < TWO_63
    ensures
      var n := TotalPagesWithMax(p, |rows|, max);
      n >= 0 && PagesUpTo(rows, p, max, n) == rows
  {
    var size := SizeWithMax(p, max);
    var n := CeilDiv(|rows|, size);
    CeilDivBounds(|rows|, size);
    if |rows| > 0 {
      TotalPagesExactIff(p, |rows|, max);
    }
    PagesArePrefix(rows, p, max, n);
    assert rows[..|rows|] == rows;
  }

  // ---- The envelope agrees with the query ----

  /**
   The envelope is built with the raw MaxPageSize, the query with the resolved one; the page
   size and number it reports still reproduce the executed LIMIT and OFFSET.
   */
  lemma EnvelopeMatchesQuery(p: Page, total: Int64, estimated: bool, maxPageSize: Int64)
    ensures
      var e := NewPagedViewModel(p, total, estimated, maxPageSize);
      && e.pageSize == SizeWithMax(p, ConfigMaxPageSize(maxPageSize))
      && Wrap64((e.pageNumber - 1) * e.pageSize) == OffsetWithMax(p, ConfigMaxPageSize(maxPageSize))
  {
    assert EffectiveMax(maxPageSize) == EffectiveMax(ConfigMaxPageSize(maxPageSize));
  }

  /** TotalPages is the number of the page that holds the last row. */
  ghost predicate CoversTotal(totalPages: int, size: int, total: int) {
    if total <= 0 then totalPages == 0 else (totalPages - 1) * size < total <= totalPages * size
  }

  lemma TotalPagesCover(p: Page, total: Int64, max: Int64)
    requires total + SizeWithMax(p, max) - 1 < TWO_63
    ensures CoversTotal(TotalPagesWithMax(p, total, max), SizeWithMax(p, max), total)
  {
    hide SizeWithMax;
    if total > 0 {
      TotalPagesExactIff(p, total, max);
      CeilDivBounds(total, SizeWithMax(p, max));
    }
  }

  /** With an exact total, HasNextPage holds iff some row lies past the current page. */
  lemma HasNextPageIff(p: Page, total: Int64, estimated: bool, max: Int64)
    requires total >= 0 && total + SizeWithMax(p, max) - 1 < TWO_63
    ensures NewPagedViewModel(p, total, estimated, max).hasNextPage <==> Number(p) * SizeWithMax(p, max) < total
  {
    var size := SizeWithMax(p, max);
    if total > 0 {
      TotalPagesExactIff(p, total, max);
      BeforeLastPageIff(Number(p), total, size);
    } else {
      assert Number(p) * size >= 0;
    }
  }
}
