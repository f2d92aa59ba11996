/** http/util.go: the response body as a JSON map without empty fields. */
module HttpUtil {
  import opened Go

  datatype Body = Body(data: Value, error: Value, total: int)

  /** Body.ToMap: "data" and "error" only when set, "total" only when non-zero. */
  function ToMap(b: Body): (m: map<string, Value>)
    ensures "data" in m <==> b.data != Nil
    ensures "error" in m <==> b.error != Nil
    ensures "total" in m <==> b.total != 0
    ensures m.Keys <= {"data", "error", "total"}
    ensures "data" in m ==> m["data"] == b.data
    ensures "error" in m ==> m["error"] == b.error
    ensures "total" in m ==> m["total"] == Int64(b.total)
  {
    var m1: map<string, Value> := if b.data != Nil then map["data" := b.data] else map[];
    var m2 := if b.error != Nil then m1["error" := b.error] else m1;
    if b.total != 0 then m2["total" := Int64(b.total)] else m2
  }

  /** The map determines the body: reading the three fields back gives the same body. */
  lemma ToMapReadsBack(b: Body)
    ensures var m := ToMap(b);
      Body(if "data" in m then m["data"] else Nil,
           if "error" in m then m["error"] else Nil,
           if "total" in m then m["total"].i else 0) == b
  {
  }
}
