/**
 * async/result.go: the outcome of a task (a value, an error and the
 * canceled/timeout flags), its typed accessors, and the list and map of
 * results. The Sync* variants are the same containers behind a lock and are
 * modelled by the same classes.
 */
module AsyncResult {
  import opened Wrappers
  import opened Go
  import opened AsyncCtx

  /** *BaseResult: it is never changed after it is made. */
  datatype BaseResult = BaseResult(value: Value, err: Option<Error>, canceled: bool, timeout: bool)

  /** A value of the Result interface: None is a nil Result. */
  type AnyResult = Option<BaseResult>

  /** async.NewResult: neither canceled nor timed out. */
  function NewResult(v: Value, err: Option<Error>): (r: BaseResult)
    ensures r.value == v && r.err == err && !r.canceled && !r.timeout
  {
    BaseResult(v, err, false, false)
  }

  /** async.NewResultWithCtx: the context's flags and error, with a nil value. */
  function NewResultWithCtx(ctx: CtxView): (r: BaseResult)
    ensures r.value == Nil && r.err == ctx.err
    ensures r.canceled == ctx.canceled && r.timeout == ctx.timeout
  {
    BaseResult(Nil, ctx.err, ctx.canceled, ctx.timeout)
  }

  /** The (value, error) pair a typed accessor returns. */
  datatype Cast<T> = Cast(value: T, err: Option<Error>)

  /** The rule every typed accessor follows: the stored error first, then a type test. */
  predicate CastRule<T(==)>(r: BaseResult, c: Cast<T>, hasType: bool, v: T, zero: T) {
    if r.err.Some? then c == Cast(zero, r.err)
    else if hasType then c == Cast(v, None)
    else c == Cast(zero, Some(TypeCast))
  }

  /** BaseResult.Bool */
  function Bool(r: BaseResult): (c: Cast<bool>)
    ensures CastRule(r, c, r.value.Bool?, if r.value.Bool? then r.value.b else false, false)
  {
    if r.err.Some? then Cast(false, r.err)
    else match r.value
      case Bool(b) => Cast(b, None)
      case _ => Cast(false, Some(TypeCast))
  }

  /** BaseResult.Int: only a Go int passes, not another integer width. */
  function Int(r: BaseResult): (c: Cast<int>)
    ensures CastRule(r, c, r.value.Int?, if r.value.Int? then r.value.i else 0, 0)
  {
    if r.err.Some? then Cast(0, r.err)
    else match r.value
      case Int(i) => Cast(i, None)
      case _ => Cast(0, Some(TypeCast))
  }

  /** BaseResult.Int32 */
  function Int32(r: BaseResult): (c: Cast<int>)
    ensures CastRule(r, c, r.value.Int32?, if r.value.Int32? then r.value.i else 0, 0)
  {
    if r.err.Some? then Cast(0, r.err)
    else match r.value
      case Int32(i) => Cast(i, None)
      case _ => Cast(0, Some(TypeCast))
  }

  /** BaseResult.Int64 */
  function Int64(r: BaseResult): (c: Cast<int>)
    ensures CastRule(r, c, r.value.Int64?, if r.value.Int64? then r.value.i else 0, 0)
  {
    if r.err.Some? then Cast(0, r.err)
    else match r.value
      case Int64(i) => Cast(i, None)
      case _ => Cast(0, Some(TypeCast))
  }

  /** BaseResult.String */
  function String(r: BaseResult): (c: Cast<string>)
    ensures CastRule(r, c, r.value.Str?, if r.value.Str? then r.value.s else "", "")
  {
    if r.err.Some? then Cast("", r.err)
    else match r.value
      case Str(s) => Cast(s, None)
      case _ => Cast("", Some(TypeCast))
  }

  /** BaseResult.MustBool: asserts the accessor's error is nil, then returns the stored bool. */
  function MustBool(r: BaseResult): (b: bool)
    requires Bool(r).err.None?
    ensures r.err.None? && r.value == Value.Bool(b)
  {
    Bool(r).value
  }

  /** BaseResult.MustInt */
  function MustInt(r: BaseResult): (i: int)
    requires Int(r).err.None?
    ensures r.err.None? && r.value == Value.Int(i)
  {
    Int(r).value
  }

  /** BaseResult.MustInt32 */
  function MustInt32(r: BaseResult): (i: int)
    requires Int32(r).err.None?
    ensures r.err.None? && r.value == Value.Int32(i)
  {
    Int32(r).value
  }

  /** BaseResult.MustInt64 */
  function MustInt64(r: BaseResult): (i: int)
    requires Int64(r).err.None?
    ensures r.err.None? && r.value == Value.Int64(i)
  {
    Int64(r).value
  }

  /** BaseResult.MustString */
  function MustString(r: BaseResult): (s: string)
    requires String(r).err.None?
    ensures r.err.None? && r.value == Str(s)
  {
    String(r).value
  }

  /**
   * The accessors agree with the constructor: a value made by NewResult
   * without an error comes back from the accessor of its own type, and
   * every other accessor reports TypeCastErr.
   */
  lemma NewResultCasts(v: Value)
    ensures v.Int? ==> Int(NewResult(v, None)) == Cast(v.i, None) && Int64(NewResult(v, None)).err == Some(TypeCast)
    ensures v.Int64? ==> Int64(NewResult(v, None)) == Cast(v.i, None) && Int(NewResult(v, None)).err == Some(TypeCast)
    ensures v.Str? ==> String(NewResult(v, None)) == Cast(v.s, None) && Bool(NewResult(v, None)).err == Some(TypeCast)
    ensures v.Nil? ==> Bool(NewResult(v, None)).err == Some(TypeCast) && String(NewResult(v, None)).err == Some(TypeCast)
  {
  }

  /** A stored error wins over the value in every accessor. */
  lemma ErrorWins(v: Value, e: Error)
    ensures Bool(NewResult(v, Some(e))).err == Some(e)
    ensures Int(NewResult(v, Some(e))).err == Some(e)
    ensures Int32(NewResult(v, Some(e))).err == Some(e)
    ensures Int64(NewResult(v, Some(e))).err == Some(e)
    ensures String(NewResult(v, Some(e))).err == Some(e)
  {
  }

  /** async.ResultList: results in the order they were added; nil results are kept. */
  class ResultList {
    var values: seq<AnyResult>

    /** async.NewResultList */
    constructor ()
      ensures values == []
    {
      values := [];
    }

    /** ResultList.Size */
    function Size(): (n: int)
      reads this
      ensures n == |values|
    {
      |values|
    }

    /** ResultList.Has: whether idx is a position of the list. */
    predicate Has(idx: int)
      reads this
      ensures Has(idx) <==> 0 <= idx < Size()
    {
      idx >= 0 && idx < |values|
    }

    /** ResultList.Get: the result at idx, nil when idx is out of range. */
    function Get(idx: int): (r: AnyResult)
      reads this
      ensures Has(idx) ==> r == values[idx]
      ensures !Has(idx) ==> r.None?
    {
      if idx >= 0 && idx < |values| then values[idx] else None
    }

    /** ResultList.Add: appends the results in order. */
    method Add(results: seq<AnyResult>)
      modifies this
      ensures values == old(values) + results
    {
      for i := 0 to |results|
        invariant values == old(values) + results[..i]
      {
        values := values + [results[i]];
      }
    }

    /** ResultList.ToSlice: a copy of the list, which later Adds do not change. */
    method ToSlice() returns (rs: seq<AnyResult>)
      ensures rs == values
    {
      rs := values;
    }
  }

  /** async.ResultMap: results by task index. */
  class ResultMap {
    var values: map<int64, AnyResult>

    /** async.NewResultMap */
    constructor ()
      ensures values == map[]
    {
      values := map[];
    }

    /** ResultMap.Size */
    function Size(): (n: int)
      reads this
      ensures n == |values.Keys|
    {
      |values|
    }

    /** ResultMap.Has: key holds a result, nil included; a key it does not hold reads as nil. */
    predicate Has(key: int64)
      reads this
      ensures !Has(key) ==> Get(key).None?
    {
      key in values
    }

    /** ResultMap.Get: the result under key, nil when there is none. */
    function Get(key: int64): (r: AnyResult)
      reads this
      ensures key in values ==> r == values[key]
      ensures key !in values ==> r.None?
    {
      if key in values then values[key] else None
    }

    /** ResultMap.Put: stores val under key, replacing what was there. */
    method Put(key: int64, val: AnyResult)
      modifies this
      ensures values == old(values)[key := val]
      ensures Has(key) && Get(key) == val
    {
      values := values[key := val];
    }

    /** ResultMap.Del: removes key and returns what it held, nil when it was absent. */
    method Del(key: int64) returns (r: AnyResult)
      modifies this
      ensures r == old(Get(key))
      ensures values == old(values) - {key}
      ensures !old(Has(key)) ==> values == old(values)
    {
      if key in values {
        r := values[key];
        values := values - {key};
        return;
      }
      return None;
    }

    /** ResultMap.ToMap: copies the entries one by one into a new map equal to the contents. */
    method ToMap() returns (rs: map<int64, AnyResult>)
      ensures rs == values
    {
      var m := values;
      rs := map[];
      var rest := m.Keys;
      while rest != {}
        invariant rest <= m.Keys
        invariant rs.Keys == m.Keys - rest
        invariant forall k :: k in rs ==> rs[k] == m[k]
        decreases rest
      {
        var k :| k in rest;
        rs := rs[k := m[k]];
        rest := rest - {k};
      }
    }
  }
}
