/**
 * set/int64_set.go: a set of int64 values kept as the key set of a Go map,
 * the same code as the string set of the package over another element type.
 */
module SetInt64Set {
  import opened Go

  class Int64Set {
    /** The keys of the map m. */
    var m: set<int64>

    /** set.NewInt64Set: the items, added one by one; repeated items are kept once. */
    constructor (items: seq<int64>)
      ensures forall x :: x in m <==> x in items
    {
      var nm: set<int64> := {};
      for i := 0 to |items|
        invariant forall x :: x in nm <==> x in items[..i]
      {
        nm := nm + {items[i]};
      }
      m := nm;
    }

    /** Int64Set.Contains: item was added; a set that contains anything is not Empty. */
    predicate Contains(item: int64)
      reads this
      ensures Contains(item) ==> !Empty(this)
    {
      item in m
    }

    /** Int64Set.Add */
    method Add(item: int64)
      modifies this
      ensures m == old(m) + {item}
    {
      m := m + {item};
    }

    /** Int64Set.AddAll: the items, one by one. */
    method AddAll(items: seq<int64>)
      modifies this
      ensures forall x :: x in m <==> x in old(m) || x in items
    {
      for i := 0 to |items|
        invariant forall x :: x in m <==> x in old(m) || x in items[..i]
      {
        m := m + {items[i]};
      }
    }

    /** Int64Set.Remove: true iff the item was there; afterwards it is not. */
    method Remove(item: int64) returns (ok: bool)
      modifies this
      ensures ok <==> item in old(m)
      ensures m == old(m) - {item}
    {
      if item !in m {
        return false;
      }
      m := m - {item};
      return true;
    }

    /** Int64Set.RemoveAll: the items, one by one. */
    method RemoveAll(items: seq<int64>)
      modifies this
      ensures forall x :: x in m <==> x in old(m) && x !in items
    {
      for i := 0 to |items|
        invariant forall x :: x in m <==> x in old(m) && x !in items[..i]
      {
        m := m - {items[i]};
      }
    }

    /** Int64Set.Clear: a fresh empty map. */
    method Clear()
      modifies this
      ensures m == {}
    {
      m := {};
    }

    /** Int64Set.Clone: a new set with its own map, copied key by key. */
    method Clone() returns (c: Int64Set)
      ensures fresh(c) && c.m == m
    {
      var nm: set<int64> := {};
      var rest := m;
      while rest != {}
        invariant rest <= m && nm == m - rest
        decreases rest
      {
        var k :| k in rest;
        nm := nm + {k};
        rest := rest - {k};
      }
      c := new Int64Set([]);
      c.m := nm;
    }

    /** Int64Set.Union: rewrites the set to the union and returns it. */
    method Union(other: Int64Set?) returns (r: Int64Set)
      modifies this
      ensures r == this && m == old(m) + old(Elems(other))
    {
      if other == null || |other.m| == 0 {
        return this;
      }
      var om := other.m;
      var rest := om;
      while rest != {}
        invariant rest <= om && m == old(m) + (om - rest)
        decreases rest
      {
        var k :| k in rest;
        m := m + {k};
        rest := rest - {k};
      }
      return this;
    }

    /** Int64Set.Diff: rewrites the set to the difference and returns it. */
    method Diff(other: Int64Set?) returns (r: Int64Set)
      modifies this
      ensures r == this && m == old(m) - old(Elems(other))
    {
      if other == null || |other.m| == 0 {
        return this;
      }
      var om := other.m;
      var rest := om;
      while rest != {}
        invariant rest <= om && m == old(m) - (om - rest)
        decreases rest
      {
        var k :| k in rest;
        m := m - {k};
        rest := rest - {k};
      }
      return this;
    }

    /** Int64Set.Intersect: a nil or empty other empties the set; otherwise it keeps the common elements. */
    method Intersect(other: Int64Set?) returns (r: Int64Set)
      modifies this
      ensures r == this && m == old(m) * old(Elems(other))
    {
      if other == null || |other.m| == 0 {
        m := {};
        return this;
      }
      var nm: set<int64> := {};
      var rest := m;
      while rest != {}
        invariant rest <= m && nm == (m - rest) * other.m
        decreases rest
      {
        var k :| k in rest;
        if k in other.m {
          nm := nm + {k};
        }
        rest := rest - {k};
      }
      m := nm;
      return this;
    }
  }

  /** The elements of a possibly nil set. */
  function Elems(h: Int64Set?): set<int64>
    reads h
  {
    if h == null then {} else h.m
  }

  /** Int64Set.Size: 0 for a nil set. */
  function Size(h: Int64Set?): (n: int)
    reads h
    ensures n == |Elems(h)|
  {
    if h == null then 0 else |h.m|
  }

  /** Int64Set.Empty: true for a nil set. */
  predicate Empty(h: Int64Set?)
    reads h
    ensures Empty(h) <==> Elems(h) == {}
  {
    if h == null then true else |h.m| == 0
  }
}
