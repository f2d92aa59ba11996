/**
 * _set/int32_set.go: a set of int32 values kept as the key set of a Go map.
 * A nil *Int32Set answers Size and Empty; the other methods dereference
 * their receiver. The `other` set of Union, Diff, Intersect and ContainsSet
 * may be nil, and may be the receiver itself. Unlike the string set of the
 * package it has no Equal, NewDiff or Pop.
 */
module USetInt32Set {
  import opened Go

  class Int32Set {
    /** The keys of the map m. */
    var m: set<int32>

    /** _set.NewInt32Set: the items, added one by one; repeated items are kept once. */
    constructor (items: seq<int32>)
      ensures forall x :: x in m <==> x in items
    {
      var nm: set<int32> := {};
      for i := 0 to |items|
        invariant forall x :: x in nm <==> x in items[..i]
      {
        nm := nm + {items[i]};
      }
      m := nm;
    }

    /** Int32Set.Contains: item was added; a set that contains anything is not Empty. */
    predicate Contains(item: int32)
      reads this
      ensures Contains(item) ==> !Empty(this)
    {
      item in m
    }

    /** Int32Set.ContainsAll: every item is in the set; the first missing one stops the loop. */
    method ContainsAll(items: seq<int32>) returns (ok: bool)
      ensures ok <==> forall i :: 0 <= i < |items| ==> items[i] in m
    {
      for i := 0 to |items|
        invariant forall j :: 0 <= j < i ==> items[j] in m
      {
        if items[i] !in m {
          return false;
        }
      }
      return true;
    }

    /** Int32Set.ContainsSet: a nil or empty other is contained; otherwise every element of other is in the set. */
    method ContainsSet(other: Int32Set?) returns (ok: bool)
      ensures ok <==> Elems(other) <= m
    {
      if other == null || Size(other) == 0 {
        return true;
      }
      var rest := other.m;
      while rest != {}
        invariant rest <= other.m && other.m - rest <= m
        decreases rest
      {
        var k :| k in rest;
        if k !in m {
          return false;
        }
        rest := rest - {k};
      }
      return true;
    }

    /** Int32Set.Add */
    method Add(item: int32)
      modifies this
      ensures m == old(m) + {item}
    {
      m := m + {item};
    }

    /** Int32Set.AddAll: the items, one by one. */
    method AddAll(items: seq<int32>)
      modifies this
      ensures forall x :: x in m <==> x in old(m) || x in items
    {
      for i := 0 to |items|
        invariant forall x :: x in m <==> x in old(m) || x in items[..i]
      {
        m := m + {items[i]};
      }
    }

    /** Int32Set.Remove: true iff the item was there; afterwards it is not. */
    method Remove(item: int32) returns (ok: bool)
      modifies this
      ensures ok <==> item in old(m)
      ensures m == old(m) - {item}
    {
      if item !in m {
        return false;
      }
      m := m - {item};
      return true;
    }

    /** Int32Set.RemoveAll: the items, one by one. */
    method RemoveAll(items: seq<int32>)
      modifies this
      ensures forall x :: x in m <==> x in old(m) && x !in items
    {
      for i := 0 to |items|
        invariant forall x :: x in m <==> x in old(m) && x !in items[..i]
      {
        m := m - {items[i]};
      }
    }

    /** Int32Set.Clear: a fresh empty map. */
    method Clear()
      modifies this
      ensures m == {}
    {
      m := {};
    }

    /** Int32Set.Clone: a new set with its own map, copied key by key. */
    method Clone() returns (c: Int32Set)
      ensures fresh(c) && c.m == m
    {
      var nm: set<int32> := {};
      var rest := m;
      while rest != {}
        invariant rest <= m && nm == m - rest
        decreases rest
      {
        var k :| k in rest;
        nm := nm + {k};
        rest := rest - {k};
      }
      c := new Int32Set([]);
      c.m := nm;
    }

    /** Int32Set.Union: rewrites the set to the union and returns it. */
    method Union(other: Int32Set?) returns (r: Int32Set)
      modifies this
      ensures r == this && m == old(m) + old(Elems(other))
    {
      if other == null || |other.m| == 0 {
        return this;
      }
      var om := other.m;
      var rest := om;
      while rest != {}
        invariant rest <= om && m == old(m) + (om - rest)
        decreases rest
      {
        var k :| k in rest;
        m := m + {k};
        rest := rest - {k};
      }
      return this;
    }

    /** Int32Set.Diff: rewrites the set to the difference and returns it. */
    method Diff(other: Int32Set?) returns (r: Int32Set)
      modifies this
      ensures r == this && m == old(m) - old(Elems(other))
    {
      if other == null || |other.m| == 0 {
        return this;
      }
      var om := other.m;
      var rest := om;
      while rest != {}
        invariant rest <= om && m == old(m) - (om - rest)
        decreases rest
      {
        var k :| k in rest;
        m := m - {k};
        rest := rest - {k};
      }
      return this;
    }

    /** Int32Set.Intersect: a nil or empty other empties the set; otherwise it keeps the common elements. */
    method Intersect(other: Int32Set?) returns (r: Int32Set)
      modifies this
      ensures r == this && m == old(m) * old(Elems(other))
    {
      if other == null || |other.m| == 0 {
        m := {};
        return this;
      }
      var nm: set<int32> := {};
      var rest := m;
      while rest != {}
        invariant rest <= m && nm == (m - rest) * other.m
        decreases rest
      {
        var k :| k in rest;
        if k in other.m {
          nm := nm + {k};
        }
        rest := rest - {k};
      }
      m := nm;
      return this;
    }
  }

  /** The elements of a possibly nil set. */
  function Elems(h: Int32Set?): set<int32>
    reads h
  {
    if h == null then {} else h.m
  }

  /** Int32Set.Size: 0 for a nil set. */
  function Size(h: Int32Set?): (n: int)
    reads h
    ensures n == |Elems(h)|
  {
    if h == null then 0 else |h.m|
  }

  /** Int32Set.Empty: true for a nil set. */
  predicate Empty(h: Int32Set?)
    reads h
    ensures Empty(h) <==> Elems(h) == {}
  {
    if h == null then true else |h.m| == 0
  }
}
