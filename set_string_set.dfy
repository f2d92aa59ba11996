/**
 * set/string_set.go: a set of strings kept as the key set of a Go map. A nil
 * *StringSet answers Size and Empty; the other methods dereference their
 * receiver. The `other` set of Union, Diff and Intersect may be nil, and may
 * be the receiver itself.
 */
module SetStringSet {

  class StringSet {
    /** The keys of the map m. */
    var m: set<string>

    /** set.NewStringSet: the items, added one by one; repeated items are kept once. */
    constructor (items: seq<string>)
      ensures forall x :: x in m <==> x in items
    {
      var nm: set<string> := {};
      for i := 0 to |items|
        invariant forall x :: x in nm <==> x in items[..i]
      {
        nm := nm + {items[i]};
      }
      m := nm;
    }

    /** StringSet.Contains: item was added; a set that contains anything is not Empty. */
    predicate Contains(item: string)
      reads this
      ensures Contains(item) ==> !Empty(this)
    {
      item in m
    }

    /** StringSet.Add */
    method Add(item: string)
      modifies this
      ensures m == old(m) + {item}
    {
      m := m + {item};
    }

    /** StringSet.AddAll: the items, one by one. */
    method AddAll(items: seq<string>)
      modifies this
      ensures forall x :: x in m <==> x in old(m) || x in items
    {
      for i := 0 to |items|
        invariant forall x :: x in m <==> x in old(m) || x in items[..i]
      {
        m := m + {items[i]};
      }
    }

    /** StringSet.Remove: true iff the item was there; afterwards it is not. */
    method Remove(item: string) returns (ok: bool)
      modifies this
      ensures ok <==> item in old(m)
      ensures m == old(m) - {item}
    {
      if item !in m {
        return false;
      }
      m := m - {item};
      return true;
    }

    /** StringSet.RemoveAll: the items, one by one. */
    method RemoveAll(items: seq<string>)
      modifies this
      ensures forall x :: x in m <==> x in old(m) && x !in items
    {
      for i := 0 to |items|
        invariant forall x :: x in m <==> x in old(m) && x !in items[..i]
      {
        m := m - {items[i]};
      }
    }

    /** StringSet.Clear: a fresh empty map. */
    method Clear()
      modifies this
      ensures m == {}
    {
      m := {};
    }

    /** StringSet.Clone: a new set with its own map, copied key by key. */
    method Clone() returns (c: StringSet)
      ensures fresh(c) && c.m == m
    {
      var nm: set<string> := {};
      var rest := m;
      while rest != {}
        invariant rest <= m && nm == m - rest
        decreases rest
      {
        var k :| k in rest;
        nm := nm + {k};
        rest := rest - {k};
      }
      c := new StringSet([]);
      c.m := nm;
    }

    /** StringSet.Union: rewrites the set to the union and returns it. */
    method Union(other: StringSet?) returns (r: StringSet)
      modifies this
      ensures r == this && m == old(m) + old(Elems(other))
    {
      if other == null || |other.m| == 0 {
        return this;
      }
      var om := other.m;
      var rest := om;
      while rest != {}
        invariant rest <= om && m == old(m) + (om - rest)
        decreases rest
      {
        var k :| k in rest;
        m := m + {k};
        rest := rest - {k};
      }
      return this;
    }

    /** StringSet.Diff: rewrites the set to the difference and returns it. */
    method Diff(other: StringSet?) returns (r: StringSet)
      modifies this
      ensures r == this && m == old(m) - old(Elems(other))
    {
      if other == null || |other.m| == 0 {
        return this;
      }
      var om := other.m;
      var rest := om;
      while rest != {}
        invariant rest <= om && m == old(m) - (om - rest)
        decreases rest
      {
        var k :| k in rest;
        m := m - {k};
        rest := rest - {k};
      }
      return this;
    }

    /** StringSet.Intersect: a nil or empty other empties the set; otherwise it keeps the common elements. */
    method Intersect(other: StringSet?) returns (r: StringSet)
      modifies this
      ensures r == this && m == old(m) * old(Elems(other))
    {
      if other == null || |other.m| == 0 {
        m := {};
        return this;
      }
      var nm: set<string> := {};
      var rest := m;
      while rest != {}
        invariant rest <= m && nm == (m - rest) * other.m
        decreases rest
      {
        var k :| k in rest;
        if k in other.m {
          nm := nm + {k};
        }
        rest := rest - {k};
      }
      m := nm;
      return this;
    }
  }

  /** The elements of a possibly nil set. */
  function Elems(h: StringSet?): set<string>
    reads h
  {
    if h == null then {} else h.m
  }

  /** StringSet.Size: 0 for a nil set. */
  function Size(h: StringSet?): (n: int)
    reads h
    ensures n == |Elems(h)|
  {
    if h == null then 0 else |h.m|
  }

  /** StringSet.Empty: true for a nil set. */
  predicate Empty(h: StringSet?)
    reads h
    ensures Empty(h) <==> Elems(h) == {}
  {
    if h == null then true else |h.m| == 0
  }
}
