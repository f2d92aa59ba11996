/**
 * _interface/util.go: helpers over `[]interface{}` lists — picking out the
 * items of one dynamic type, and flattening slice arguments one level.
 */
module UInterface {
  import opened Go

  /** _interface.Of: the variadic arguments as a list, unchanged. */
  function Of(items: seq<Value>): (r: seq<Value>)
    ensures r == items
  {
    items
  }

  /** _interface.ToIntSlice: the items whose dynamic type is int, in order. */
  function ToIntSlice(items: seq<Value>): (r: seq<int>)
    ensures |r| <= |items|
    ensures forall x :: x in r ==> Int(x) in items
    ensures forall i :: 0 <= i < |items| && items[i].Int? ==> items[i].i in r
  {
    if items == [] then []
    else
      var rest := ToIntSlice(items[1..]);
      assert forall x :: x in rest ==> Int(x) in items[1..];
      (if items[0].Int? then [items[0].i] else []) + rest
  }

  /** _interface.ToInt64Slice: the items whose dynamic type is int64, in order. */
  function ToInt64Slice(items: seq<Value>): (r: seq<int>)
    ensures |r| <= |items|
    ensures forall x :: x in r ==> Int64(x) in items
    ensures forall i :: 0 <= i < |items| && items[i].Int64? ==> items[i].i in r
  {
    if items == [] then []
    else
      var rest := ToInt64Slice(items[1..]);
      assert forall x :: x in rest ==> Int64(x) in items[1..];
      (if items[0].Int64? then [items[0].i] else []) + rest
  }

  /** _interface.ToStringSlice: the items whose dynamic type is string, in order. */
  function ToStringSlice(items: seq<Value>): (r: seq<string>)
    ensures |r| <= |items|
    ensures forall x :: x in r ==> Str(x) in items
    ensures forall i :: 0 <= i < |items| && items[i].Str? ==> items[i].s in r
  {
    if items == [] then []
    else
      var rest := ToStringSlice(items[1..]);
      assert forall x :: x in rest ==> Str(x) in items[1..];
      (if items[0].Str? then [items[0].s] else []) + rest
  }

  /** The filters keep order: filtering a concatenation concatenates the filtered parts. */
  lemma {:induction false} ToIntSliceConcat(a: seq<Value>, b: seq<Value>)
    ensures ToIntSlice(a + b) == ToIntSlice(a) + ToIntSlice(b)
  {
    if a == [] {
      assert a + b == b;
    } else {
      assert (a + b)[0] == a[0] && (a + b)[1..] == a[1..] + b;
      ToIntSliceConcat(a[1..], b);
    }
  }

  lemma {:induction false} ToInt64SliceConcat(a: seq<Value>, b: seq<Value>)
    ensures ToInt64Slice(a + b) == ToInt64Slice(a) + ToInt64Slice(b)
  {
    if a == [] {
      assert a + b == b;
    } else {
      assert (a + b)[0] == a[0] && (a + b)[1..] == a[1..] + b;
      ToInt64SliceConcat(a[1..], b);
    }
  }

  lemma {:induction false} ToStringSliceConcat(a: seq<Value>, b: seq<Value>)
    ensures ToStringSlice(a + b) == ToStringSlice(a) + ToStringSlice(b)
  {
    if a == [] {
      assert a + b == b;
    } else {
      assert (a + b)[0] == a[0] && (a + b)[1..] == a[1..] + b;
      ToStringSliceConcat(a[1..], b);
    }
  }

  /** A list of ints is kept whole by ToIntSlice and dropped by the other two filters. */
  lemma {:induction false} IntsOnlyMatchInt(xs: seq<int>)
    ensures var items := seq(|xs|, i requires 0 <= i < |xs| => Int(xs[i]));
      ToIntSlice(items) == xs && ToInt64Slice(items) == [] && ToStringSlice(items) == []
  {
    var items := seq(|xs|, i requires 0 <= i < |xs| => Int(xs[i]));
    if xs != [] {
      IntsOnlyMatchInt(xs[1..]);
      assert items[1..] == seq(|xs[1..]|, i requires 0 <= i < |xs[1..]| => Int(xs[1..][i]));
    }
  }

  /** One argument's contribution to Flat: the elements of a slice, or the argument itself. */
  function FlatItem(item: Value): (r: seq<Value>)
    ensures !(item.Slice? || item.Bytes?) ==> r == [item]
  {
    match item
    case Slice(xs) => xs
    case Bytes(bs) => seq(|bs|, i requires 0 <= i < |bs| => Uint8(bs[i] as nat))
    case _ => [item]
  }

  /**
   * _interface.Flat: every argument whose reflect kind is Slice (a []byte
   * included) is replaced by its elements; every other argument, nil
   * included, is kept.
   */
  function Flat(items: seq<Value>): (rs: seq<Value>)
    ensures items == [] ==> rs == []
  {
    if items == [] then [] else FlatItem(items[0]) + Flat(items[1..])
  }

  lemma {:induction false} FlatConcat(a: seq<Value>, b: seq<Value>)
    ensures Flat(a + b) == Flat(a) + Flat(b)
  {
    if a == [] {
      assert a + b == b;
    } else {
      assert (a + b)[0] == a[0] && (a + b)[1..] == a[1..] + b;
      FlatConcat(a[1..], b);
    }
  }

  /** Arguments that are not slices pass through Flat unchanged. */
  lemma {:induction false} FlatKeepsNonSlices(items: seq<Value>)
    requires forall i :: 0 <= i < |items| ==> !(items[i].Slice? || items[i].Bytes?)
    ensures Flat(items) == items
  {
    if items != [] {
      FlatKeepsNonSlices(items[1..]);
    }
  }

  /**
   * Flat flattens one level only: a slice argument is replaced by its
   * elements exactly, even when those elements are slices themselves.
   */
  lemma FlatOneLevel(xs: seq<Value>)
    ensures Flat([Slice(xs)]) == xs
    ensures Flat([Slice([Slice(xs)])]) == [Slice(xs)]
  {
    assert [Slice(xs)][1..] == [];
    assert [Slice([Slice(xs)])][1..] == [];
  }
}
