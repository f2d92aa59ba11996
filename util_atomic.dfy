/**
 * util/atomic.go: cells read and written with sync/atomic operations. The
 * model gives their sequential meaning; concurrency is not modelled.
 */
module UtilAtomic {
  import opened Wrappers
  import opened Text
  import opened Go

  /** Two's-complement wrap-around into the int64 range, as Go's int64 arithmetic. */
  function WrapInt64(x: int): (r: int)
    ensures IsInt64(r)
    ensures IsInt64(x) ==> r == x
    ensures (r - x) % 0x1_0000_0000_0000_0000 == 0
  {
    (x - MinInt64) % 0x1_0000_0000_0000_0000 + MinInt64
  }

  /** Go's int32(v) conversion: the low 32 bits, as a signed number. */
  function ToInt32(x: int): (r: int)
    ensures -0x8000_0000 <= r < 0x8000_0000
    ensures -0x8000_0000 <= x < 0x8000_0000 ==> r == x
    ensures (r - x) % 0x1_0000_0000 == 0
  {
    (x + 0x8000_0000) % 0x1_0000_0000 - 0x8000_0000
  }

  /** util.AtomicBool: an int32 cell holding 1 for true and 0 for false. */
  class AtomicBool {
    var cell: int32

    /** Only 0 and 1 are ever stored. */
    predicate Valid()
      reads this
    {
      cell == 0 || cell == 1
    }

    /** util.NewAtomicBool */
    constructor (v: bool)
      ensures Valid() && Value() == v
    {
      cell := if v then 1 else 0;
    }

    /** AtomicBool.Set */
    method Set(v: bool)
      modifies this
      ensures Valid() && Value() == v
    {
      cell := if v then 1 else 0;
    }

    /**
     * AtomicBool.CASwap: a compare-and-swap of the cell from expected's
     * encoding to its negation's, so it flips the value exactly when it is
     * expected.
     */
    method CASwap(expected: bool) returns (swapped: bool)
      requires Valid()
      modifies this
      ensures Valid()
      ensures swapped <==> old(Value()) == expected
      ensures swapped ==> Value() == !expected
      ensures !swapped ==> cell == old(cell)
    {
      var oldCell: int32, newCell: int32 := 0, 1;
      if expected {
        oldCell, newCell := 1, 0;
      }
      if cell == oldCell {
        cell := newCell;
        return true;
      }
      return false;
    }

    /** AtomicBool.Value: the cell holds 1; on a valid cell false means it holds 0. */
    function Value(): (v: bool)
      reads this
      ensures v <==> cell == 1
      ensures Valid() ==> (!v <==> cell == 0)
    {
      cell == 1
    }

    /** AtomicBool.True */
    predicate True()
      reads this
      ensures True() <==> Value()
    {
      Value() == true
    }

    /** AtomicBool.False: the complement of True. */
    predicate False()
      reads this
      ensures False() <==> !True()
    {
      Value() == false
    }
  }

  /** util.AtomicInt64 */
  class AtomicInt64 {
    var value: int

    predicate Valid()
      reads this
    {
      IsInt64(value)
    }

    /** util.NewAtomicInt64 */
    constructor (v: int)
      requires IsInt64(v)
      ensures Valid() && value == v
    {
      value := v;
    }

    /** AtomicInt64.Set */
    method Set(v: int)
      requires IsInt64(v)
      modifies this
      ensures Valid() && value == v
    {
      value := v;
    }

    /** AtomicInt64.Incr: adds n, wrapping around on overflow, and returns the new value. */
    method Incr(n: int) returns (v: int)
      requires Valid() && IsInt64(n)
      modifies this
      ensures Valid()
      ensures value == WrapInt64(old(value) + n) && v == value
    {
      value := WrapInt64(value + n);
      v := value;
    }

    /** AtomicInt64.CASwap: stores target if the value is expected. */
    method CASwap(expected: int, target: int) returns (swapped: bool)
      requires Valid() && IsInt64(target)
      modifies this
      ensures Valid()
      ensures swapped <==> old(value) == expected
      ensures swapped ==> value == target
      ensures !swapped ==> value == old(value)
    {
      if value == expected {
        value := target;
        return true;
      }
      return false;
    }

    /** AtomicInt64.Value (and Int, Go's int being 64 bits wide): the int64 held. */
    function Value(): (v: int)
      reads this
      ensures v == value
      ensures Valid() ==> IsInt64(v)
    {
      value
    }

    /** AtomicInt64.Int32: the low 32 bits of the value. */
    function Int32(): (r: int)
      reads this
      ensures -0x8000_0000 <= value < 0x8000_0000 ==> r == value
    {
      ToInt32(value)
    }

    /** AtomicInt64.String: decimal text that strconv.ParseInt reads back as the value. */
    function String(): (s: string)
      reads this
      ensures Valid() ==> ParseInt(s) == Success(Value())
    {
      if Valid() then ParseFormatInt(value); FormatInt(value) else FormatInt(value)
    }
  }

  /** util.AtomicTime: an atomic.Value that is empty until the first Set. */
  class AtomicTime {
    var value: Option<Instant>

    /** util.NewAtomicTime */
    constructor ()
      ensures value == None
    {
      value := None;
    }

    /** AtomicTime.Set */
    method Set(v: Instant) returns (a: AtomicTime)
      modifies this
      ensures value == Some(v) && a == this
    {
      value := Some(v);
      return this;
    }

    /** AtomicTime.Value: the stored time, or the zero time before any Set. */
    function Value(): (t: Instant)
      reads this
      ensures value.None? ==> t == ZeroTime
      ensures value.Some? ==> t == value.value
    {
      if value.Some? then value.value else ZeroTime
    }

    /**
     * AtomicTime.CASwap: stores target if the stored time is expected. Before
     * any Set nothing is stored and atomic.Value.CompareAndSwap with a
     * non-nil old value fails, even when expected is the zero time.
     */
    method CASwap(expected: Instant, target: Instant) returns (swapped: bool)
      modifies this
      ensures swapped <==> old(value) == Some(expected)
      ensures swapped ==> value == Some(target)
      ensures !swapped ==> value == old(value)
    {
      if value == Some(expected) {
        value := Some(target);
        return true;
      }
      return false;
    }
  }

  /** packedError: the box stored in the atomic.Value, so that a nil error is a stored value too. */
  datatype PackedError = Packed(err: Option<Error>)

  /** util.AtomicError: an atomic.Value holding a packed, possibly nil, error. */
  class AtomicError {
    /** The atomic.Value: None until the first Store, then the last box stored. */
    var cell: Option<PackedError>

    /** A holder made by NewAtomicError has stored a box. */
    predicate Valid()
      reads this
    {
      cell.Some?
    }

    /** util.NewAtomicError: stores a packed nil error. */
    constructor ()
      ensures Valid() && Value() == None
    {
      cell := Some(Packed(None));
    }

    /** AtomicError.Value: unpackError of the load, nil when nothing was ever stored. */
    function Value(): (e: Option<Error>)
      reads this
      ensures cell.None? ==> e == None
      ensures Valid() ==> cell == Some(Packed(e))
    {
      match cell
      case Some(Packed(err)) => err
      case None => None
    }

    /** AtomicError.Set */
    method Set(err: Option<Error>) returns (a: AtomicError)
      modifies this
      ensures cell == Some(Packed(err)) && a == this
      ensures Valid() && Value() == err
    {
      cell := Some(Packed(err));
      return this;
    }

    /**
     * AtomicError.CASwap: atomic.Value.CompareAndSwap with both errors packed, so it swaps
     * exactly when a box holding expected (nil included) is stored, and never on a holder
     * that has stored nothing.
     */
    method CASwap(expected: Option<Error>, target: Option<Error>) returns (swapped: bool)
      modifies this
      ensures swapped <==> old(cell) == Some(Packed(expected))
      ensures old(Valid()) ==> (swapped <==> old(Value()) == expected)
      ensures swapped ==> cell == Some(Packed(target)) && Value() == target
      ensures !swapped ==> cell == old(cell)
    {
      if cell == Some(Packed(expected)) {
        cell := Some(Packed(target));
        return true;
      }
      return false;
    }

    /** AtomicError.SetIfAbsent: stores err only when a nil error is held. */
    method SetIfAbsent(err: Option<Error>) returns (swapped: bool)
      modifies this
      ensures swapped <==> old(cell) == Some(Packed(None))
      ensures old(Valid()) ==> (swapped <==> old(Value()) == None)
      ensures swapped ==> Value() == err
      ensures !swapped ==> cell == old(cell)
    {
      swapped := CASwap(None, err);
    }
  }

  /** Incrementing by n and then by -n gives the value back, across overflow too. */
  lemma IncrUndo(v: int, n: int)
    requires IsInt64(v) && IsInt64(n) && IsInt64(-n)
    ensures WrapInt64(WrapInt64(v + n) + -n) == v
  {
    var w := WrapInt64(v + n);
    var k := (w - (v + n)) / 0x1_0000_0000_0000_0000;
    assert w == v + n + k * 0x1_0000_0000_0000_0000;
    WrapUnique(w - n, v, k);
  }

  lemma WrapUnique(x: int, v: int, k: int)
    requires IsInt64(v) && x == v + k * 0x1_0000_0000_0000_0000
    ensures WrapInt64(x) == v
  {
    var m := 0x1_0000_0000_0000_0000;
    var y := x - MinInt64;
    assert y == (v - MinInt64) + k * m;
    assert 0 <= v - MinInt64 < m;
    DivUnique(y, m, k);
  }

  /** MaxInt64 + 1 wraps to MinInt64. */
  lemma IncrOverflow()
    ensures WrapInt64(MaxInt64 + 1) == MinInt64
  {
  }
}
