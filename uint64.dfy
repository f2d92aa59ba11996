/** _int64/util.go: conversions of int64 lists. */
module UInt64 {
  import opened Wrappers
  import opened Text
  import opened Go
  import UString
  import UInterface

  /** _int64.ToStringSlice: each item in base 10, in order. */
  function ToStringSlice(items: seq<int>): (r: seq<string>)
    ensures |r| == |items|
    ensures forall i :: 0 <= i < |items| ==> r[i] == FormatInt(items[i])
  {
    if items == [] then [] else [FormatInt(items[0])] + ToStringSlice(items[1..])
  }

  /** Rendering int64s in base 10 and parsing them back with _string.ToInt64Slice is the identity. */
  lemma {:induction false} ToStringSliceParses(items: seq<int>)
    requires forall i :: 0 <= i < |items| ==> IsInt64(items[i])
    ensures UString.ToInt64Slice(ToStringSlice(items)) == Success(items)
  {
    if items != [] {
      var ss := ToStringSlice(items);
      ToStringSliceParses(items[1..]);
      ParseFormatInt(items[0]);
      assert ss[0] == FormatInt(items[0]) && ss[1..] == ToStringSlice(items[1..]);
      assert [items[0]] + items[1..] == items;
    }
  }

  /** _int64.ToInterfaceSlice: each item boxed as an int64 value, in order. */
  function ToInterfaceSlice(items: seq<int>): (r: seq<Value>)
    ensures |r| == |items|
    ensures forall i :: 0 <= i < |items| ==> r[i] == Int64(items[i])
  {
    if items == [] then [] else [Int64(items[0])] + ToInterfaceSlice(items[1..])
  }

  /**
   * Boxing int64s and picking the int64s back out is the identity, while
   * _interface.ToIntSlice finds no int among them.
   */
  lemma {:induction false} ToInterfaceSliceInt64s(items: seq<int>)
    ensures UInterface.ToInt64Slice(ToInterfaceSlice(items)) == items
    ensures UInterface.ToIntSlice(ToInterfaceSlice(items)) == []
  {
    if items != [] {
      ToInterfaceSliceInt64s(items[1..]);
      assert ToInterfaceSlice(items)[1..] == ToInterfaceSlice(items[1..]);
    }
  }
}
