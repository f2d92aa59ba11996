/** rdb/z.go: score ranges for sorted-set queries. */
module RdbZ {
  import opened Wrappers
  import opened Text

  /** redis.ZRangeBy */
  datatype ZRangeBy = ZRangeBy(min: string, max: string, offset: int, count: int)

  /** The text of one bound: +inf/-inf for the extreme scores, "(" for an exclusive bound. */
  function Bound(n: int, exclusive: bool): (r: string)
    ensures n == MaxInt64 ==> r == "+inf"
    ensures n == MinInt64 ==> r == "-inf"
  {
    if n == MaxInt64 then "+inf"
    else if n == MinInt64 then "-inf"
    else if exclusive then "(" + FormatInt(n) else FormatInt(n)
  }

  /** A finite bound reads back as its score, and it is exclusive exactly when it starts with "(". */
  lemma BoundReadsBack(n: int, exclusive: bool)
    requires MinInt64 < n < MaxInt64
    ensures HasPrefix(Bound(n, exclusive), "(") <==> exclusive
    ensures ParseInt(TrimPrefix(Bound(n, exclusive), "(")) == Success(n)
  {
    ParseFormatInt(n);
    var s := FormatInt(n);
    assert s[0] == '-' || IsDigit(s[0]);
    if exclusive {
      assert ("(" + s)[1..] == s;
    }
  }

  /** ZRangeOption: a builder whose setters change the option and return it. */
  class ZRangeOption {
    var low: bool
    var high: bool
    var min: int
    var max: int
    var offset: int
    var count: int

    /** NewZRangeOption: both bounds inclusive, no paging. */
    constructor (min: int, max: int)
      ensures this.min == min && this.max == max
      ensures !low && !high && offset == 0 && count == 0
    {
      this.min, this.max := min, max;
      low, high, offset, count := false, false, 0, 0;
    }

    method Limit(offset: int, count: int) returns (z: ZRangeOption)
      modifies this
      ensures z == this
      ensures this.offset == offset && this.count == count
      ensures low == old(low) && high == old(high) && min == old(min) && max == old(max)
    {
      this.offset, this.count := offset, count;
      z := this;
    }

    method Exclude(low: bool, high: bool) returns (z: ZRangeOption)
      modifies this
      ensures z == this
      ensures this.low == low && this.high == high
      ensures min == old(min) && max == old(max) && offset == old(offset) && count == old(count)
    {
      this.low, this.high := low, high;
      z := this;
    }

    /** Build: the query range; an extreme score is infinite whatever its exclusion flag. */
    function Build(): (r: ZRangeBy)
      reads this
      ensures r.offset == offset && r.count == count
      ensures min == MinInt64 ==> r.min == "-inf"
      ensures max == MaxInt64 ==> r.max == "+inf"
    {
      ZRangeBy(Bound(min, low), Bound(max, high), offset, count)
    }
  }

  /** The range Build produces reads back as the option's scores and exclusion flags. */
  lemma BuildReadsBack(z: ZRangeOption)
    requires MinInt64 < z.min < MaxInt64 && MinInt64 < z.max < MaxInt64
    ensures var r := z.Build();
      ParseInt(TrimPrefix(r.min, "(")) == Success(z.min) && (HasPrefix(r.min, "(") <==> z.low)
      && ParseInt(TrimPrefix(r.max, "(")) == Success(z.max) && (HasPrefix(r.max, "(") <==> z.high)
  {
    BoundReadsBack(z.min, z.low);
    BoundReadsBack(z.max, z.high);
  }
}
