/** rpc/util.go: reading one value of a gRPC metadata key. */
module RpcUtil {
  import opened Text

  /** metadata.MD: lower-case keys to their values. */
  type MD = map<string, seq<string>>

  /** MD.Get: the values of a key, looked up in lower case. */
  function MDGet(md: MD, key: string): seq<string> {
    var k := ToLower(key);
    if k in md then md[k] else []
  }

  /**
   * GetMDVal: the idx-th value of key; a negative idx counts from the end
   * (-1 is the last). The flag is false for an empty MD, an absent key or an
   * index out of range.
   */
  function GetMDVal(md: MD, key: string, idx: int): (r: (string, bool))
    ensures var vals := MDGet(md, key);
      r.1 <==> (|md| > 0 && -|vals| <= idx < |vals|)
    ensures var vals := MDGet(md, key);
      r.1 ==> r.0 == (if idx >= 0 then vals[idx] else vals[idx + |vals|])
    ensures !r.1 ==> r.0 == ""
  {
    if |md| == 0 then ("", false)
    else
      var vals := MDGet(md, key);
      var n := |vals|;
      if n > 0 && idx >= 0 && idx < n then (vals[idx], true)
      else if n > 0 && idx < 0 && idx >= -n then (vals[idx + n], true)
      else ("", false)
  }

  lemma {:induction false} ToLowerIdempotent(s: string)
    ensures ToLower(ToLower(s)) == ToLower(s)
  {
    if s != [] {
      ToLowerIdempotent(s[1..]);
      assert ToLower(s)[1..] == ToLower(s[1..]);
    }
  }

  /** Keys are matched without regard to ASCII case. */
  lemma KeyCaseInsensitive(md: MD, key: string, idx: int)
    ensures GetMDVal(md, key, idx) == GetMDVal(md, ToLower(key), idx)
  {
    ToLowerIdempotent(key);
  }

  /** Index -k names the same value as index n-k. */
  lemma NegativeIndexFromEnd(md: MD, key: string, k: int)
    requires 1 <= k <= |MDGet(md, key)|
    ensures GetMDVal(md, key, -k) == GetMDVal(md, key, |MDGet(md, key)| - k)
  {
  }
}
