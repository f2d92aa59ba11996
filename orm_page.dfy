/** orm/page.go: page number and size turned into LIMIT and OFFSET. */
module OrmPage {
  import opened Text
  import UtilAtomic

  const DefaultPageSize: int := 30
  const DefaultMaxPageSize: int := 100

  /** Pager: No counts from 1. */
  datatype Pager = Pager(no: int, size: int, defaultSize: int, maxSize: int)

  function NewPager(no: int, size: int): (p: Pager)
    ensures p.no == no && p.size == size
    ensures p.defaultSize == DefaultPageSize && p.maxSize == DefaultMaxPageSize
  {
    Pager(no, size, DefaultPageSize, DefaultMaxPageSize)
  }

  /** Limit: the default for a non-positive size, capped by a positive maximum. */
  function Limit(p: Pager): (r: int)
    ensures p.size <= 0 ==> r == p.defaultSize
    ensures p.size > 0 ==> 0 < r <= p.size
    ensures p.size > 0 && p.maxSize > 0 ==> r <= p.maxSize
    ensures p.size > 0 && r < p.size ==> r == p.maxSize
  {
    if p.size <= 0 then p.defaultSize
    else if p.maxSize > 0 && p.size > p.maxSize then p.maxSize
    else p.size
  }

  /**
   * Offset: the rows of the pages before page No, 0 for the first page. The
   * product is a Go int, so past MaxInt64 rows it wraps.
   */
  function Offset(p: Pager): (r: int)
    ensures IsInt64(r)
    ensures Limit(p) <= 0 || p.no <= 1 ==> r == 0
    ensures Limit(p) > 0 && p.no > 1 && IsInt64(Limit(p) * (p.no - 1)) ==> r == Limit(p) * (p.no - 1) && r >= Limit(p)
  {
    var limit := Limit(p);
    if limit > 0 && p.no > 1 then UtilAtomic.WrapInt64(limit * (p.no - 1)) else 0
  }

  /**
   * A pager made by NewPager asks for between 1 and 100 rows, from an offset
   * that is non-negative while the rows before the page fit in an int.
   */
  lemma NewPagerBounds(no: int, size: int)
    ensures 1 <= Limit(NewPager(no, size)) <= DefaultMaxPageSize
    ensures no <= MaxInt64 / DefaultMaxPageSize ==> Offset(NewPager(no, size)) >= 0
    ensures size <= 0 ==> Limit(NewPager(no, size)) == DefaultPageSize
  {
    var p := NewPager(no, size);
    if 1 < no <= MaxInt64 / DefaultMaxPageSize {
      ProductFits(Limit(p), no - 1);
    }
  }

  /** At most 100 rows on each of at most MaxInt64 / 100 pages fit in an int. */
  lemma ProductFits(l: int, k: int)
    requires 0 < l <= DefaultMaxPageSize && 0 < k <= MaxInt64 / DefaultMaxPageSize
    ensures 0 < l * k <= MaxInt64
  {
    assert MaxInt64 / DefaultMaxPageSize == 92_233_720_368_547_758;
    assert (DefaultMaxPageSize - l) * k >= 0;
  }

  /** Consecutive pages are contiguous, page n+1 starting where page n ends, while the offsets fit in an int. */
  lemma PagesAreContiguous(p: Pager)
    requires p.no >= 1 && Limit(p) > 0 && IsInt64(Limit(p) * p.no)
    ensures Offset(p.(no := p.no + 1)) == Offset(p) + Limit(p)
  {
    var q := p.(no := p.no + 1);
    var l := Limit(p);
    assert Limit(q) == l;
    if p.no == 1 {
      assert Offset(q) == l * 1;
    } else {
      MulStep(l, p.no);
      assert IsInt64(l * (p.no - 1));
      assert Offset(q) == l * p.no;
    }
  }

  lemma MulStep(l: int, n: int)
    requires l > 0 && n >= 2
    ensures 0 < l * (n - 1) < l * n && l * n == l * (n - 1) + l
  {
  }

  /** Past MaxInt64 rows the offset wraps: page 2^62 + 1 of size 2 starts at the negative offset -2^63. */
  lemma OffsetWraps()
    ensures Offset(NewPager(0x4000_0000_0000_0001, 2)) == MinInt64
  {
    assert Limit(NewPager(0x4000_0000_0000_0001, 2)) == 2;
  }

  /** The repository's paging test: page 10 of size 2 starts after 18 rows and takes 2. */
  method TenthPageOfTwoScenario() returns (limit: int, offset: int)
    ensures limit == 2 && offset == 18
  {
    var p := NewPager(10, 2);
    limit := Limit(p);
    offset := Offset(p);
  }
}
